/** The two independent validators of a routed plan: the balance replay of the performance harness and the
    path checker of the Quoter comparison, and what each says about plans that the evaluator reports. */
module LedgerChecks {
  import opened Market
  import opened Evaluator

  datatype Hop = Hop(poolId: PoolId, tokenIn: Address, tokenOut: Address, amountIn: int, amountOut: int)

  datatype Allocation = Allocation(path: seq<PoolId>, amountIn: int)

  /** One candidate of a saved report. */
  datatype Candidate = Candidate(
    steps: seq<Hop>, amountOut: int, amountInSpent: int, residualIn: int, feasible: bool, terminalRefund: Ledger,
    allocations: seq<Allocation>)

  datatype Ask = Ask(tokenIn: Address, tokenOut: Address, amountIn: int)

  function Opening(ask: Ask): Ledger {
    map[ask.tokenIn := ask.amountIn]
  }

  function Apply(b: Ledger, h: Hop): Ledger {
    Move(b, h.tokenIn, h.amountIn, h.tokenOut, h.amountOut)
  }

  /** The balances after the steps, or None once a step spends more than is held. */
  function Replay(start: Ledger, steps: seq<Hop>): Option<Ledger> {
    if steps == [] then Some(start)
    else
      var h := steps[|steps| - 1];
      match Replay(start, steps[..|steps| - 1])
      case None => None
      case Some(b) => if Held(b, h.tokenIn) >= h.amountIn then Some(Apply(b, h)) else None
  }

  predicate ReplayAccepts(c: Candidate, ask: Ask) {
    match Replay(Opening(ask), c.steps)
    case None => false
    case Some(b) =>
      && Held(b, ask.tokenOut) == c.amountOut
      && ask.amountIn - Held(b, ask.tokenIn) == c.amountInSpent
      && Held(b, ask.tokenIn) == c.residualIn
      && forall t :: t in c.terminalRefund ==> c.terminalRefund[t] > 0 && Held(b, t) == c.terminalRefund[t]
  }

  /** `replay_balances`: true where no assertion fails. */
  method ReplayBalances(c: Candidate, ask: Ask) returns (ok: bool)
    ensures ok <==> ReplayAccepts(c, ask)
  {
    var balances := Opening(ask);
    var i := 0;
    while i < |c.steps|
      invariant 0 <= i <= |c.steps|
      invariant Replay(Opening(ask), c.steps[..i]) == Some(balances)
    {
      var h := c.steps[i];
      assert c.steps[..i + 1][..i] == c.steps[..i];
      if Held(balances, h.tokenIn) < h.amountIn {
        OverspendSticks(Opening(ask), c.steps, i + 1);
        return false;
      }
      balances := Apply(balances, h);
      i := i + 1;
    }
    assert c.steps[..|c.steps|] == c.steps;
    if Held(balances, ask.tokenOut) != c.amountOut || ask.amountIn - Held(balances, ask.tokenIn) != c.amountInSpent
       || Held(balances, ask.tokenIn) != c.residualIn {
      return false;
    }
    var tokens := c.terminalRefund.Keys;
    while tokens != {}
      invariant tokens <= c.terminalRefund.Keys
      invariant forall t :: t in c.terminalRefund && t !in tokens ==>
        c.terminalRefund[t] > 0 && Held(balances, t) == c.terminalRefund[t]
    {
      var t :| t in tokens;
      if c.terminalRefund[t] <= 0 || Held(balances, t) != c.terminalRefund[t] {
        return false;
      }
      tokens := tokens - {t};
    }
    ok := true;
  }

  lemma {:induction false} OverspendSticks(start: Ledger, steps: seq<Hop>, n: nat)
    requires n <= |steps| && Replay(start, steps[..n]).None?
    ensures Replay(start, steps).None?
    decreases |steps|
  {
    if n < |steps| {
      assert steps[..|steps| - 1][..n] == steps[..n];
      OverspendSticks(start, steps[..|steps| - 1], n);
    } else {
      assert steps[..n] == steps;
    }
  }

  // ---------------------------------------------------------------- the path checker

  /** The token and amount that a run of steps hands on, or None where continuity breaks. */
  function Follow(records: map<PoolId, set<Address>>, steps: seq<Hop>, token: Address, amount: int)
    : Option<(Address, int)>
  {
    if steps == [] then Some((token, amount))
    else
      var h := steps[|steps| - 1];
      match Follow(records, steps[..|steps| - 1], token, amount)
      case None => None
      case Some((t, a)) =>
        if h.poolId in records && h.tokenIn == t && h.amountIn == a && {h.tokenIn, h.tokenOut} == records[h.poolId]
        then Some((h.tokenOut, h.amountOut)) else None
  }

  /** A Python slice `steps[from:from + len]`, which stops at the end of the list. */
  function Slice(steps: seq<Hop>, from: nat, len: nat): seq<Hop>
    requires from <= |steps|
  {
    steps[from..if from + len <= |steps| then from + len else |steps|]
  }

  /** One allocation's path, started at `offset`: its output, or None where the checker raises. */
  function PathOutput(records: map<PoolId, set<Address>>, steps: seq<Hop>, offset: nat, alloc: Allocation, ask: Ask)
    : Option<int>
    requires offset <= |steps|
  {
    var path := Slice(steps, offset, |alloc.path|);
    if Pools(path) != alloc.path || path == [] || path[0].amountIn != alloc.amountIn then None
    else match Follow(records, path, ask.tokenIn, alloc.amountIn)
      case None => None
      case Some((t, a)) => if t == ask.tokenOut then Some(path[|path| - 1].amountOut) else None
  }

  function Pools(steps: seq<Hop>): (ids: seq<PoolId>)
    ensures |ids| == |steps|
  {
    seq(|steps|, i requires 0 <= i < |steps| => steps[i].poolId)
  }

  datatype Totals = Totals(offset: nat, total: int, drawn: int)

  /** The checker's `offset, total, drawn` after the allocations, or None where it raises. */
  function Walk(records: map<PoolId, set<Address>>, steps: seq<Hop>, allocs: seq<Allocation>, ask: Ask)
    : (r: Option<Totals>)
    ensures r.Some? ==> r.value.offset <= |steps|
  {
    if allocs == [] then Some(Totals(0, 0, 0))
    else
      var alloc := allocs[|allocs| - 1];
      match Walk(records, steps, allocs[..|allocs| - 1], ask)
      case None => None
      case Some(t) => WalkOn(records, steps, t, alloc, ask)
  }

  predicate RepeatsPool(steps: seq<Hop>) {
    exists i, j :: 0 <= i < j < |steps| && steps[i].poolId == steps[j].poolId
  }

  predicate PathAccepts(records: map<PoolId, set<Address>>, c: Candidate, ask: Ask) {
    && c.feasible && c.residualIn == 0 && c.amountInSpent == ask.amountIn
    && !RepeatsPool(c.steps)
    && Walk(records, c.steps, c.allocations, ask) == Some(Totals(|c.steps|, c.amountOut, ask.amountIn))
  }

  /** The checks on one allocation's steps, hop by hop. */
  method CheckPath(records: map<PoolId, set<Address>>, steps: seq<Hop>, offset: nat, alloc: Allocation, ask: Ask)
    returns (out: Option<int>)
    requires offset <= |steps|
    ensures out == PathOutput(records, steps, offset, alloc, ask)
  {
    var path := Slice(steps, offset, |alloc.path|);
    if Pools(path) != alloc.path || path == [] || path[0].amountIn != alloc.amountIn {
      return None;
    }
    var token, amount := ask.tokenIn, alloc.amountIn;
    var j := 0;
    while j < |path|
      invariant 0 <= j <= |path|
      invariant Follow(records, path[..j], ask.tokenIn, alloc.amountIn) == Some((token, amount))
    {
      var h := path[j];
      assert path[..j + 1][..j] == path[..j];
      if h.poolId !in records || h.tokenIn != token || h.amountIn != amount
         || {h.tokenIn, h.tokenOut} != records[h.poolId] {
        BreakSticks(records, path, ask.tokenIn, alloc.amountIn, j + 1);
        return None;
      }
      token, amount := h.tokenOut, h.amountOut;
      j := j + 1;
    }
    assert path[..|path|] == path;
    out := if token == ask.tokenOut then Some(path[|path| - 1].amountOut) else None;
  }

  /** The allocation loop with its three running totals. */
  method CheckAllocations(records: map<PoolId, set<Address>>, steps: seq<Hop>, allocs: seq<Allocation>, ask: Ask)
    returns (totals: Option<Totals>)
    ensures totals == Walk(records, steps, allocs, ask)
  {
    hide PathOutput, Slice;
    var offset, total, drawn := 0, 0, 0;
    var k := 0;
    while k < |allocs|
      invariant 0 <= k <= |allocs| && 0 <= offset <= |steps|
      invariant Walk(records, steps, allocs[..k], ask) == Some(Totals(offset, total, drawn))
    {
      WalkOne(records, steps, allocs, ask, k);
      var out := CheckPath(records, steps, offset, allocs[k], ask);
      if out.None? {
        RaiseSticks(records, steps, allocs, ask, k + 1);
        return None;
      }
      offset, total, drawn :=
        offset + |Slice(steps, offset, |allocs[k].path|)|, total + out.value, drawn + allocs[k].amountIn;
      k := k + 1;
    }
    assert allocs[..|allocs|] == allocs;
    totals := Some(Totals(offset, total, drawn));
  }

  /** The checks of the Quoter comparison on one candidate: true where nothing is raised. */
  method CheckPaths(records: map<PoolId, set<Address>>, c: Candidate, ask: Ask) returns (ok: bool)
    ensures ok <==> PathAccepts(records, c, ask)
  {
    if !c.feasible || c.residualIn != 0 || c.amountInSpent != ask.amountIn || RepeatsPool(c.steps) {
      return false;
    }
    var totals := CheckAllocations(records, c.steps, c.allocations, ask);
    ok := totals == Some(Totals(|c.steps|, c.amountOut, ask.amountIn));
  }

  function WalkOn(
    records: map<PoolId, set<Address>>, steps: seq<Hop>, t: Totals, alloc: Allocation, ask: Ask): Option<Totals>
    requires t.offset <= |steps|
  {
    match PathOutput(records, steps, t.offset, alloc, ask)
    case None => None
    case Some(out) =>
      Some(Totals(t.offset + |Slice(steps, t.offset, |alloc.path|)|, t.total + out, t.drawn + alloc.amountIn))
  }

  lemma WalkOne(records: map<PoolId, set<Address>>, steps: seq<Hop>, allocs: seq<Allocation>, ask: Ask, k: nat)
    requires k < |allocs|
    ensures Walk(records, steps, allocs[..k + 1], ask) ==
      match Walk(records, steps, allocs[..k], ask)
      case None => None
      case Some(t) => WalkOn(records, steps, t, allocs[k], ask)
  {
    assert allocs[..k + 1][..k] == allocs[..k];
  }

  lemma {:induction false} BreakSticks(
    records: map<PoolId, set<Address>>, steps: seq<Hop>, token: Address, amount: int, n: nat)
    requires n <= |steps| && Follow(records, steps[..n], token, amount).None?
    ensures Follow(records, steps, token, amount).None?
    decreases |steps|
  {
    if n < |steps| {
      assert steps[..|steps| - 1][..n] == steps[..n];
      BreakSticks(records, steps[..|steps| - 1], token, amount, n);
    } else {
      assert steps[..n] == steps;
    }
  }

  lemma {:induction false} RaiseSticks(
    records: map<PoolId, set<Address>>, steps: seq<Hop>, allocs: seq<Allocation>, ask: Ask, n: nat)
    requires n <= |allocs| && Walk(records, steps, allocs[..n], ask).None?
    ensures Walk(records, steps, allocs, ask).None?
    decreases |allocs|
  {
    if n < |allocs| {
      assert allocs[..|allocs| - 1][..n] == allocs[..n];
      RaiseSticks(records, steps, allocs[..|allocs| - 1], ask, n);
    } else {
      assert allocs[..n] == allocs;
    }
  }

  // ---------------------------------------------------------------- when an accepted candidate replays

  ghost predicate MidPath(b: Ledger, ask: Ask, unallocated: int, total: int, token: Address, amount: int) {
    InHand(b, ask.tokenIn, ask.tokenOut, unallocated, total, token, amount)
  }

  /** What a hop finds of its input token beside the amount its path hands on. */
  function Beside(ask: Ask, token: Address, unallocated: int, total: int): int {
    If(token == ask.tokenIn, unallocated) + If(token == ask.tokenOut, total)
  }

  /** No hop of the path spends a token of which less than nothing is left beside the path's own amount. */
  ghost predicate SolventPath(path: seq<Hop>, ask: Ask, unallocated: int, total: int) {
    forall i :: 0 <= i < |path| ==> Beside(ask, path[i].tokenIn, unallocated, total) >= 0
  }

  /** Replaying one path overspends exactly at a hop whose token is in the red beside the path's own amount; without
      such a hop it moves the path's allocation to its end token. */
  lemma {:induction false} ReplayPath(
    records: map<PoolId, set<Address>>, start: Ledger, before: seq<Hop>, path: seq<Hop>, ask: Ask, unallocated: int,
    total: int, amount: int, b: Ledger)
    requires Replay(start, before) == Some(b)
    requires MidPath(b, ask, unallocated, total, ask.tokenIn, amount)
    requires Follow(records, path, ask.tokenIn, amount).Some?
    ensures Replay(start, before + path).Some? <==> SolventPath(path, ask, unallocated, total)
    ensures Replay(start, before + path).Some? ==>
      var (token, left) := Follow(records, path, ask.tokenIn, amount).value;
      MidPath(Replay(start, before + path).value, ask, unallocated, total, token, left)
    decreases |path|
  {
    if path == [] {
      assert before + path == before;
    } else {
      hide SolventPath, MidPath, Follow, Replay, Apply, Held;
      var front, h := path[..|path| - 1], path[|path| - 1];
      assert path == front + [h];
      OneMoreHop(front, h, ask, unallocated, total);
      FollowOne(records, front, h, ask.tokenIn, amount);
      ReplayPath(records, start, before, front, ask, unallocated, total, amount, b);
      assert before + path == before + front + [h];
      ReplayOne(start, before + front, h);
      if SolventPath(front, ask, unallocated, total) {
        HopSpends(Replay(start, before + front).value, h, ask, unallocated, total);
      }
    }
  }

  lemma OneMoreHop(front: seq<Hop>, h: Hop, ask: Ask, unallocated: int, total: int)
    ensures SolventPath(front + [h], ask, unallocated, total) <==>
      SolventPath(front, ask, unallocated, total) && Beside(ask, h.tokenIn, unallocated, total) >= 0
  {
    var path := front + [h];
    assert forall i :: 0 <= i < |front| ==> path[i] == front[i];
    assert path[|front|] == h;
  }

  lemma ReplayOne(start: Ledger, front: seq<Hop>, h: Hop)
    ensures Replay(start, front + [h]) ==
      match Replay(start, front)
      case None => None
      case Some(b) => if Held(b, h.tokenIn) >= h.amountIn then Some(Apply(b, h)) else None
  {
    assert (front + [h])[..|front|] == front;
  }

  lemma FollowOne(records: map<PoolId, set<Address>>, front: seq<Hop>, h: Hop, token: Address, amount: int)
    requires Follow(records, front + [h], token, amount).Some?
    ensures Follow(records, front, token, amount) == Some((h.tokenIn, h.amountIn))
    ensures Follow(records, front + [h], token, amount) == Some((h.tokenOut, h.amountOut))
  {
    assert (front + [h])[..|front|] == front;
  }

  /** A hop spends just what its path hands on. */
  lemma HopSpends(mid: Ledger, h: Hop, ask: Ask, unallocated: int, total: int)
    requires MidPath(mid, ask, unallocated, total, h.tokenIn, h.amountIn)
    ensures Held(mid, h.tokenIn) >= h.amountIn <==> Beside(ask, h.tokenIn, unallocated, total) >= 0
    ensures MidPath(Apply(mid, h), ask, unallocated, total, h.tokenOut, h.amountOut)
  {
    assert Held(mid, h.tokenIn) == Beside(ask, h.tokenIn, unallocated, total) + h.amountIn;
    MoveChanges(mid, h.tokenIn, h.amountIn, h.tokenOut, h.amountOut);
  }

  /** The steps of allocation j, and the totals before it. */
  function Before(records: map<PoolId, set<Address>>, c: Candidate, ask: Ask, j: nat): (t: Totals)
    requires j <= |c.allocations|
    ensures t.offset <= |c.steps|
  {
    var w := Walk(records, c.steps, c.allocations[..j], ask);
    if w.Some? then w.value else Totals(0, 0, 0)
  }

  function PathOf(records: map<PoolId, set<Address>>, c: Candidate, ask: Ask, j: nat): seq<Hop>
    requires j < |c.allocations|
  {
    Slice(c.steps, Before(records, c, ask, j).offset, |c.allocations[j].path|)
  }

  /** Path j spends nothing that is in the red, given what is unallocated after it and what came out before it. */
  ghost predicate SolventAt(records: map<PoolId, set<Address>>, c: Candidate, ask: Ask, j: nat)
    requires j < |c.allocations|
  {
    SolventPath(PathOf(records, c, ask, j), ask,
                ask.amountIn - Before(records, c, ask, j).drawn - c.allocations[j].amountIn,
                Before(records, c, ask, j).total)
  }

  ghost predicate Solvent(records: map<PoolId, set<Address>>, c: Candidate, ask: Ask, n: nat)
    requires n <= |c.allocations|
  {
    forall j :: 0 <= j < n ==> SolventAt(records, c, ask, j)
  }

  /** The first allocations of an accepted candidate are walked through as well. */
  lemma {:induction false} AcceptedWalks(records: map<PoolId, set<Address>>, c: Candidate, ask: Ask, k: nat)
    requires PathAccepts(records, c, ask) && k <= |c.allocations|
    ensures Walk(records, c.steps, c.allocations[..k], ask) == Some(Before(records, c, ask, k))
    decreases |c.allocations| - k
  {
    if k == |c.allocations| {
      assert c.allocations[..k] == c.allocations;
    } else {
      AcceptedWalks(records, c, ask, k + 1);
      WalkOne(records, c.steps, c.allocations, ask, k);
    }
  }

  /** The totals move on by one path. */
  lemma NextTotals(records: map<PoolId, set<Address>>, c: Candidate, ask: Ask, j: nat)
    requires PathAccepts(records, c, ask) && j < |c.allocations|
    ensures var t, path, next := Before(records, c, ask, j), PathOf(records, c, ask, j), Before(records, c, ask, j + 1);
      && path != [] && path[0].tokenIn == ask.tokenIn
      && next.offset == t.offset + |path| && path == c.steps[t.offset..t.offset + |path|]
      && next.drawn == t.drawn + c.allocations[j].amountIn
      && next.total == t.total + path[|path| - 1].amountOut
      && Follow(records, path, ask.tokenIn, c.allocations[j].amountIn) ==
        Some((ask.tokenOut, path[|path| - 1].amountOut))
  {
    AcceptedWalks(records, c, ask, j);
    AcceptedWalks(records, c, ask, j + 1);
    WalkOne(records, c.steps, c.allocations, ask, j);
    var path := PathOf(records, c, ask, j);
    LastOutput(records, path, ask.tokenIn, c.allocations[j].amountIn);
    FirstInput(records, path, ask.tokenIn, c.allocations[j].amountIn);
  }

  lemma LastOutput(records: map<PoolId, set<Address>>, path: seq<Hop>, token: Address, amount: int)
    requires path != [] && Follow(records, path, token, amount).Some?
    ensures Follow(records, path, token, amount).value.1 == path[|path| - 1].amountOut
  {
  }

  lemma {:induction false} FirstInput(records: map<PoolId, set<Address>>, path: seq<Hop>, token: Address, amount: int)
    requires path != [] && Follow(records, path, token, amount).Some?
    ensures path[0].tokenIn == token
  {
    if |path| > 1 {
      FirstInput(records, path[..|path| - 1], token, amount);
    }
  }

  /** After the first k allocations: the replay got this far exactly when all their paths are solvent, and then it
      holds the unallocated input and the outputs so far, and nothing else. */
  ghost predicate Settled(records: map<PoolId, set<Address>>, c: Candidate, ask: Ask, k: nat)
    requires k <= |c.allocations|
  {
    var t := Before(records, c, ask, k);
    var replayed := Replay(Opening(ask), c.steps[..t.offset]);
    && (replayed.Some? <==> Solvent(records, c, ask, k))
    && (replayed.Some? ==> MidPath(replayed.value, ask, ask.amountIn - t.drawn, t.total, ask.tokenIn, 0))
  }

  lemma {:induction false} ReplayAllocations(records: map<PoolId, set<Address>>, c: Candidate, ask: Ask, k: nat)
    requires PathAccepts(records, c, ask) && k <= |c.allocations|
    ensures Settled(records, c, ask, k)
    decreases k
  {
    if k == 0 {
      AcceptedWalks(records, c, ask, 0);
      assert c.allocations[..0] == [] && c.steps[..0] == [];
    } else {
      ReplayAllocations(records, c, ask, k - 1);
      ReplayAllocation(records, c, ask, k - 1);
    }
  }

  lemma ReplayAllocation(records: map<PoolId, set<Address>>, c: Candidate, ask: Ask, j: nat)
    requires PathAccepts(records, c, ask) && j < |c.allocations| && Settled(records, c, ask, j)
    ensures Settled(records, c, ask, j + 1)
  {
    hide MidPath, Replay, Follow, Walk, SolventPath, PathAccepts, Before, PathOf;
    NextTotals(records, c, ask, j);
    var t, path, next := Before(records, c, ask, j), PathOf(records, c, ask, j), Before(records, c, ask, j + 1);
    var earlier := c.steps[..t.offset];
    assert earlier + path == c.steps[..next.offset];
    if Replay(Opening(ask), earlier).Some? {
      var b := Replay(Opening(ask), earlier).value;
      var unallocated := ask.amountIn - next.drawn;
      TakeInHand(b, ask, unallocated, t.total, c.allocations[j].amountIn);
      ReplayPath(records, Opening(ask), earlier, path, ask, unallocated, t.total, c.allocations[j].amountIn, b);
      assert SolventAt(records, c, ask, j) <==> SolventPath(path, ask, unallocated, t.total);
      if Replay(Opening(ask), earlier + path).Some? {
        HandOver(Replay(Opening(ask), earlier + path).value, ask, unallocated, t.total, path[|path| - 1].amountOut);
      }
    } else {
      assert c.steps[..next.offset][..t.offset] == earlier;
      OverspendSticks(Opening(ask), c.steps[..next.offset], t.offset);
    }
  }

  /** Allocating takes the amount in hand; a path's end adds what is in hand to the outputs. */
  lemma TakeInHand(b: Ledger, ask: Ask, unallocated: int, total: int, amount: int)
    requires MidPath(b, ask, unallocated + amount, total, ask.tokenIn, 0)
    ensures MidPath(b, ask, unallocated, total, ask.tokenIn, amount)
  {
  }

  lemma HandOver(b: Ledger, ask: Ask, unallocated: int, total: int, amount: int)
    requires MidPath(b, ask, unallocated, total, ask.tokenOut, amount)
    ensures MidPath(b, ask, unallocated, total + amount, ask.tokenIn, 0)
  {
  }

  /** Replaying an accepted candidate goes through exactly when it is solvent, and then leaves its output and nothing
      else. No amount is assumed to have a sign. */
  lemma AcceptedReplaysIffSolvent(records: map<PoolId, set<Address>>, c: Candidate, ask: Ask)
    requires PathAccepts(records, c, ask)
    ensures Replay(Opening(ask), c.steps).Some? <==> Solvent(records, c, ask, |c.allocations|)
    ensures Replay(Opening(ask), c.steps).Some? ==>
      forall t :: Held(Replay(Opening(ask), c.steps).value, t) == If(t == ask.tokenOut, c.amountOut)
  {
    var n := |c.allocations|;
    assert c.allocations[..n] == c.allocations;
    AcceptedWalks(records, c, ask, n);
    ReplayAllocations(records, c, ask, n);
    assert c.steps[..|c.steps|] == c.steps;
  }

  ghost predicate SpendsOutput(path: seq<Hop>, ask: Ask) {
    exists i :: 0 <= i < |path| && path[i].tokenIn == ask.tokenOut
  }

  /** What a reader of the report can check for path j: the allocations up to it do not exceed the request, and if
      it spends the output token, the outputs before it do not sum to less than zero. */
  ghost predicate Funded(records: map<PoolId, set<Address>>, c: Candidate, ask: Ask, j: nat)
    requires j < |c.allocations|
  {
    && Before(records, c, ask, j + 1).drawn <= ask.amountIn
    && (SpendsOutput(PathOf(records, c, ask, j), ask) ==> Before(records, c, ask, j).total >= 0)
  }

  /** For different request tokens an accepted candidate replays exactly when all its paths are funded. */
  lemma AcceptedReplaysIffFunded(records: map<PoolId, set<Address>>, c: Candidate, ask: Ask)
    requires PathAccepts(records, c, ask) && ask.tokenIn != ask.tokenOut
    ensures Replay(Opening(ask), c.steps).Some? <==>
      forall j :: 0 <= j < |c.allocations| ==> Funded(records, c, ask, j)
  {
    hide PathAccepts, Before, PathOf, SolventPath, SpendsOutput, Replay;
    AcceptedReplaysIffSolvent(records, c, ask);
    forall j | 0 <= j < |c.allocations| ensures SolventAt(records, c, ask, j) <==> Funded(records, c, ask, j) {
      NextTotals(records, c, ask, j);
      SolventPathMeans(PathOf(records, c, ask, j), ask, ask.amountIn - Before(records, c, ask, j + 1).drawn,
                       Before(records, c, ask, j).total);
    }
  }

  lemma SolventPathMeans(path: seq<Hop>, ask: Ask, unallocated: int, total: int)
    requires path != [] && path[0].tokenIn == ask.tokenIn && ask.tokenIn != ask.tokenOut
    ensures SolventPath(path, ask, unallocated, total) <==>
      unallocated >= 0 && (SpendsOutput(path, ask) ==> total >= 0)
  {
    if SolventPath(path, ask, unallocated, total) {
      assert Beside(ask, path[0].tokenIn, unallocated, total) >= 0;
    }
  }

  // ---------------------------------------------------------------- the two checkers agree

  /** What the path checker leaves for the replay: a consistent refund. */
  predicate RefundIsTheOutput(c: Candidate, ask: Ask) {
    forall t :: t in c.terminalRefund ==> t == ask.tokenOut && c.terminalRefund[t] == c.amountOut && c.amountOut > 0
  }

  /** Exactly when the balance replay accepts a candidate that the path checker accepts. */
  lemma CheckersAgree(records: map<PoolId, set<Address>>, c: Candidate, ask: Ask)
    requires PathAccepts(records, c, ask)
    ensures ReplayAccepts(c, ask) <==>
      && Solvent(records, c, ask, |c.allocations|)
      && (ask.tokenIn != ask.tokenOut || c.amountOut == 0)
      && RefundIsTheOutput(c, ask)
  {
    hide Solvent, Walk;
    AcceptedReplaysIffSolvent(records, c, ask);
    if ReplayAccepts(c, ask) {
      var b := Replay(Opening(ask), c.steps).value;
      forall t | t in c.terminalRefund
        ensures t == ask.tokenOut && c.terminalRefund[t] == c.amountOut && c.amountOut > 0
      {
        assert Held(b, t) == If(t == ask.tokenOut, c.amountOut);
      }
    }
  }

  /** What the evaluator guarantees of every amount it reports. */
  ghost predicate NonNegative(c: Candidate) {
    && (forall h :: h in c.steps ==> h.amountIn >= 0 && h.amountOut >= 0)
    && (forall a :: a in c.allocations ==> a.amountIn >= 0)
  }

  /** Allocations still to come are non-negative, so no prefix assigns more than the request; nor is any sum of
      outputs negative. */
  lemma {:induction false} Remaining(records: map<PoolId, set<Address>>, c: Candidate, ask: Ask, k: nat)
    requires PathAccepts(records, c, ask) && NonNegative(c) && k <= |c.allocations|
    ensures Before(records, c, ask, k).drawn <= ask.amountIn
    decreases |c.allocations| - k
  {
    if k == |c.allocations| {
      assert c.allocations[..k] == c.allocations;
    } else {
      hide PathAccepts, Before, PathOf;
      Remaining(records, c, ask, k + 1);
      NextTotals(records, c, ask, k);
    }
  }

  lemma {:induction false} OutputsAccrue(records: map<PoolId, set<Address>>, c: Candidate, ask: Ask, k: nat)
    requires PathAccepts(records, c, ask) && NonNegative(c) && k <= |c.allocations|
    ensures Before(records, c, ask, k).total >= 0
  {
    if k == 0 {
      assert c.allocations[..0] == [];
    } else {
      hide PathAccepts, Before, PathOf;
      OutputsAccrue(records, c, ask, k - 1);
      NextTotals(records, c, ask, k - 1);
      var path := PathOf(records, c, ask, k - 1);
      assert path[|path| - 1] in c.steps;
    }
  }

  /** Non-negative amounts make every accepted candidate solvent. */
  lemma NonNegativeIsSolvent(records: map<PoolId, set<Address>>, c: Candidate, ask: Ask)
    requires PathAccepts(records, c, ask) && NonNegative(c)
    ensures Solvent(records, c, ask, |c.allocations|)
  {
    hide PathAccepts, Before, PathOf;
    forall j | 0 <= j < |c.allocations| ensures SolventAt(records, c, ask, j) {
      Remaining(records, c, ask, j + 1);
      OutputsAccrue(records, c, ask, j);
      NextTotals(records, c, ask, j);
    }
  }

  /** Replaying an accepted candidate with non-negative amounts leaves its output and nothing else. */
  lemma AcceptedPathsSettle(records: map<PoolId, set<Address>>, c: Candidate, ask: Ask)
    requires PathAccepts(records, c, ask) && NonNegative(c)
    ensures Replay(Opening(ask), c.steps).Some?
    ensures forall t :: Held(Replay(Opening(ask), c.steps).value, t) == If(t == ask.tokenOut, c.amountOut)
  {
    NonNegativeIsSolvent(records, c, ask);
    AcceptedReplaysIffSolvent(records, c, ask);
  }

  /** For non-negative amounts only the tokens and the refund decide. */
  lemma CheckersAgreeOnNonNegative(records: map<PoolId, set<Address>>, c: Candidate, ask: Ask)
    requires PathAccepts(records, c, ask) && NonNegative(c)
    ensures ReplayAccepts(c, ask) <==>
      (ask.tokenIn != ask.tokenOut || c.amountOut == 0) && RefundIsTheOutput(c, ask)
  {
    hide PathAccepts, ReplayAccepts, Solvent;
    NonNegativeIsSolvent(records, c, ask);
    CheckersAgree(records, c, ask);
  }

  /** The harness's own case: a plain report with two different tokens and no refund is accepted by both. */
  lemma CheckersAgreeWithoutRefund(records: map<PoolId, set<Address>>, c: Candidate, ask: Ask)
    requires PathAccepts(records, c, ask) && NonNegative(c)
    requires ask.tokenIn != ask.tokenOut && c.terminalRefund == map[]
    ensures ReplayAccepts(c, ask)
  {
    CheckersAgreeOnNonNegative(records, c, ask);
  }

  /** Non-negative amounts are needed: an allocation larger than the request, balanced by a negative one. */
  lemma NegativeAllocationSplitsTheCheckers()
    ensures exists records, c, ask ::
      PathAccepts(records, c, ask) && ask.tokenIn != ask.tokenOut && c.terminalRefund == map[] && !ReplayAccepts(c, ask)
  {
    var ask := Ask("in", "out", 10);
    var h0 := Hop("p", "in", "out", 15, 3);
    var h1 := Hop("q", "in", "out", -5, 0);
    var records := map["p" := {"in", "out"}, "q" := {"in", "out"}];
    var a0, a1 := Allocation(["p"], 15), Allocation(["q"], -5);
    var c := Candidate([h0, h1], 3, 10, 0, true, map[], [a0, a1]);
    assert "p"[0] != "q"[0];
    assert Slice(c.steps, 0, 1) == [h0] && Slice(c.steps, 1, 1) == [h1];
    assert Pools([h0]) == ["p"] && Pools([h1]) == ["q"];
    assert [h0][..0] == [] && [h1][..0] == [];
    assert Follow(records, [h0], "in", 15) == Some(("out", 3));
    assert Follow(records, [h1], "in", -5) == Some(("out", 0));
    assert [a0][..0] == [] && [a0, a1][..1] == [a0];
    assert Walk(records, c.steps, [a0], ask) == Some(Totals(1, 3, 15));
    assert Walk(records, c.steps, [a0, a1], ask) == Some(Totals(2, 3, 10));
    assert PathAccepts(records, c, ask);
    assert [h0, h1][..1] == [h0];
    assert Replay(Opening(ask), [h0]).None?;
  }

  /** The replay asks for less: it accepts a plan that goes through one pool twice, which the path checker refuses. */
  lemma ReplayChecksLess()
    ensures exists c, ask :: ReplayAccepts(c, ask) && forall records :: !PathAccepts(records, c, ask)
  {
    var ask := Ask("in", "out", 10);
    var h0, h1 := Hop("p", "in", "mid", 10, 5), Hop("p", "mid", "out", 5, 3);
    var c := Candidate([h0, h1], 3, 10, 0, true, map[], []);
    assert "in"[0] != "mid"[0] && "in"[0] != "out"[0] && "mid"[0] != "out"[0];
    assert [h0, h1][..1] == [h0] && [h0][..0] == [];
    assert Replay(Opening(ask), [h0]) == Some(Apply(Opening(ask), h0));
    assert Held(Apply(Opening(ask), h0), "mid") == 5;
    assert Replay(Opening(ask), [h0, h1]) == Some(Apply(Apply(Opening(ask), h0), h1));
    assert c.steps[0].poolId == c.steps[1].poolId;
    assert ReplayAccepts(c, ask) && RepeatsPool(c.steps);
  }

  // ---------------------------------------------------------------- reports come from the evaluator

  function ReportHops(results: seq<StepResult>): (hops: seq<Hop>)
    ensures |hops| == |results|
  {
    seq(|results|, i requires 0 <= i < |results| =>
      var s := results[i].step; Hop(s.poolId, s.tokenIn, s.tokenOut, s.amountIn, results[i].amountOut))
  }

  function ReportOf(e: Evaluation, allocations: seq<Allocation>): Candidate {
    Candidate(ReportHops(e.steps), e.amountOut, e.amountInSpent, e.residualIn, e.feasible, e.terminalRefund,
      allocations)
  }

  function AskOf(request: Request): Ask {
    Ask(request.tokenIn.address, request.tokenOut.address, request.amountIn)
  }

  /** The evaluator's balances are the replay of the results it has recorded, failed run or not. */
  lemma {:induction false} EvaluatorReplays(
    venue: Venue, chain: int, steps: seq<Step>, request: Request, pools: map<PoolId, PoolState>)
    ensures var run := Execute(venue, chain, steps, Start(request, pools));
      && Replay(Opening(AskOf(request)), ReportHops(run.results)) == Some(run.balances)
      && (forall r :: r in run.results ==> r.step.amountIn >= 0 && r.amountOut >= 0)
    decreases |steps|
  {
    hide ExecuteStep, Move;
    if steps != [] {
      var front := steps[..|steps| - 1];
      EvaluatorReplays(venue, chain, front, request, pools);
      var before := Execute(venue, chain, front, Start(request, pools));
      var run := Execute(venue, chain, steps, Start(request, pools));
      if before.failure.None? {
        StepOutcome(venue, chain, |front|, steps[|front|], before);
        if run.failure.None? {
          assert ReportHops(run.results)[..|before.results|] == ReportHops(before.results);
        }
      }
    }
  }

  /** `check_report` never fails on what the evaluator reports, feasible or not, exactly when the evaluator
      did not refuse the request itself for using one token at both ends. */
  lemma EvaluatorReportsReplay(venue: Venue, plan: Plan, states: seq<PoolState>, allocations: seq<Allocation>)
    ensures ReplayAccepts(ReportOf(Evaluate(venue, plan, states), allocations), AskOf(plan.request)) <==>
      (plan.request.tokenIn.address != plan.request.tokenOut.address || plan.request.amountIn == 0)
  {
    var pools := PoolsById(states);
    var e := Evaluate(venue, plan, states);
    if ValidRequest(plan.request) && !SharesCapacity(plan.steps, pools) {
      EvaluatorReplays(venue, plan.request.tokenIn.chain, plan.steps, plan.request, pools);
    } else {
      assert ReportHops(e.steps) == [];
    }
  }

  /** The non-negativity that the agreement needs holds of everything the evaluator reports. */
  lemma EvaluatorReportsNonNegative(venue: Venue, plan: Plan, states: seq<PoolState>)
    ensures forall h :: h in ReportHops(Evaluate(venue, plan, states).steps) ==> h.amountIn >= 0 && h.amountOut >= 0
  {
    var pools := PoolsById(states);
    if ValidRequest(plan.request) && !SharesCapacity(plan.steps, pools) {
      EvaluatorReplays(venue, plan.request.tokenIn.chain, plan.steps, plan.request, pools);
    }
  }
}
