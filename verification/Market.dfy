/** Shared value types of the router: tokens, pool states, plans and their evaluation.

    A pool's pricing data is the uninterpreted type `Depth`, and its two pure methods `swap` and
    `gas_estimate` are the fields of a `Venue`: every result below holds for all of them. */
module Market {

  type Address = string
  type PoolId = string

  datatype Option<+T> = None | Some(value: T)

  datatype Token = Token(chain: int, address: Address)

  datatype Request = Request(tokenIn: Token, tokenOut: Token, amountIn: int, allowPsmDaiRefund: bool)

  /** The LitePSM constants the evaluator looks at when it allows a terminal DAI refund. */
  datatype Psm = Psm(dai: Address, gem: Address, tout: int, to18: int)

  /** Whatever else an adapter keeps in an immutable pool state. */
  type Depth(==, !new, 0)

  datatype PoolState = PoolState(
    poolId: PoolId, chain: int, tokens: seq<Address>, capacityIds: seq<string>, psm: Option<Psm>, depth: Depth)

  datatype SwapResult = Swapped(amountOut: int, next: PoolState) | Unsupported(reason: string)

  datatype GasResult = Gas(estimate: Option<int>) | GasUnsupported(reason: string)

  datatype Venue = Venue(
    swap: (PoolState, Address, Address, int) -> SwapResult,
    gas: (PoolState, Address, Address) -> GasResult)

  datatype Step = Step(poolId: PoolId, tokenIn: Address, tokenOut: Address, amountIn: int)

  datatype StepResult = StepResult(step: Step, amountOut: int, gas: Option<int>)

  /** Provenance that a solver attaches to a plan; the evaluator never reads it. */
  datatype SearchInfo =
    | SplitInfo(kind: string, allocation: seq<(seq<PoolId>, int)>)
    | BeamInfo(depth: nat, expansions: nat, truncated: bool, beamPruned: bool)

  datatype Plan = Plan(request: Request, steps: seq<Step>, solver: string, info: SearchInfo)

  type Ledger = map<Address, int>

  /** A `defaultdict(int)` read. */
  function Held(ledger: Ledger, token: Address): int {
    if token in ledger then ledger[token] else 0
  }

  function Credit(ledger: Ledger, token: Address, amount: int): Ledger {
    ledger[token := Held(ledger, token) + amount]
  }

  /** One hop on a ledger: debit the input, then credit the output. */
  function Move(ledger: Ledger, tokenIn: Address, amountIn: int, tokenOut: Address, amountOut: int): Ledger {
    Credit(Credit(ledger, tokenIn, -amountIn), tokenOut, amountOut)
  }

  function If(cond: bool, x: int): int {
    if cond then x else 0
  }

  lemma MoveChanges(ledger: Ledger, tokenIn: Address, amountIn: int, tokenOut: Address, amountOut: int)
    ensures var moved := Move(ledger, tokenIn, amountIn, tokenOut, amountOut);
      forall t :: Held(moved, t) == Held(ledger, t) - If(t == tokenIn, amountIn) + If(t == tokenOut, amountOut)
  {
  }

  /** In the middle of a route: the input still to spend, the outputs so far, and the amount in hand. */
  ghost predicate InHand(
    b: Ledger, tokenIn: Address, tokenOut: Address, unspent: int, total: int, token: Address, amount: int)
  {
    forall t :: Held(b, t) == If(t == tokenIn, unspent) + If(t == tokenOut, total) + If(t == token, amount)
  }

  /** A live object: an address and the immutable state behind it. */
  datatype Object = Object(id: int, state: PoolState)

  /** An object that is alive together with `kept` ones has an address of its own. */
  ghost predicate OwnAddress(kept: seq<Object>, o: Object) {
    forall k :: k in kept && k.id == o.id ==> k == o
  }

  /** `{state.record.pool_id: state for state in states}`: a later state wins. */
  function PoolsById(states: seq<PoolState>): map<PoolId, PoolState> {
    if states == [] then map[]
    else PoolsById(states[..|states| - 1])[states[|states| - 1].poolId := states[|states| - 1]]
  }

  ghost predicate DistinctIds(states: seq<PoolState>) {
    forall i, j :: 0 <= i < j < |states| ==> states[i].poolId != states[j].poolId
  }

  /** The dictionary holds, for every pool id of the list and no other, the last state with that id. */
  lemma {:induction false} PoolsByIdKeepsTheLast(states: seq<PoolState>, id: PoolId)
    ensures id in PoolsById(states) <==> exists i :: 0 <= i < |states| && states[i].poolId == id
    ensures id in PoolsById(states) ==> exists i ::
      0 <= i < |states| && PoolsById(states)[id] == states[i] && states[i].poolId == id && Newest(states, i)
  {
    if states != [] {
      var n := |states| - 1;
      PoolsByIdKeepsTheLast(states[..n], id);
      if states[n].poolId == id {
        assert PoolsById(states)[id] == states[n] && Newest(states, n);
      } else if id in PoolsById(states) {
        var i :| 0 <= i < n && PoolsById(states[..n])[id] == states[..n][i] && states[..n][i].poolId == id
          && Newest(states[..n], i);
        assert PoolsById(states)[id] == states[i] && Newest(states, i);
      }
    }
  }

  /** No later state has the same pool id. */
  ghost predicate Newest(states: seq<PoolState>, i: nat)
    requires i < |states|
  {
    forall j :: i < j < |states| ==> states[j].poolId != states[i].poolId
  }

  /** With globally unique ids the dictionary lists the states exactly. */
  lemma {:induction false} PoolsByIdLists(states: seq<PoolState>)
    requires DistinctIds(states)
    ensures forall i :: 0 <= i < |states| ==>
      states[i].poolId in PoolsById(states) && PoolsById(states)[states[i].poolId] == states[i]
  {
    if states != [] {
      var front := states[..|states| - 1];
      PoolsByIdLists(front);
      forall i | 0 <= i < |states|
        ensures states[i].poolId in PoolsById(states) && PoolsById(states)[states[i].poolId] == states[i]
      {
        if i < |front| {
          assert front[i] == states[i];
        }
      }
    }
  }
}
