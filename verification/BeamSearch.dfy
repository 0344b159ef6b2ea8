/** The bounded stateful search and its residual-skip rewrite, which stops asking the evaluator about
    nonterminal children that still hold input. */
module BeamSearch {
  import opened Market
  import opened Evaluator
  import opened Lists

  datatype Node = Node(balances: Ledger, states: seq<PoolState>, steps: seq<Step>)

  datatype Refusal = Refusal(poolId: PoolId, tokenIn: Address, tokenOut: Address, amount: int, why: string)

  /** What the child generator does at one offer: record a refusal, or yield a child. */
  datatype Event = Refused(item: Refusal) | Child(node: Node)

  datatype Offer = Offer(index: nat, tokenIn: Address, tokenOut: Address, amount: int)

  /** The representation key that lets two nodes be recognised as equal. */
  type Key(==, !new, 0)

  /** A solver's constructor arguments, with its action sizes, node key and beam order as parameters. */
  datatype Settings = Settings(
    maxSteps: nat, maxExpansions: nat, beamWidth: nat, exhaustive: bool, incumbents: seq<Plan>,
    sizes: (PoolState, Address, Address, int, Request) -> seq<int>,
    key: Node -> Option<Key>,
    trim: seq<Node> -> seq<Node>)

  // ---------------------------------------------------------------- the child generator

  /** `_amounts` keeps only the sizes that the balance can pay for. */
  function Affordable(sizes: seq<int>, held: int): (kept: seq<int>)
    ensures forall a :: a in kept ==> 0 < a <= held
  {
    if sizes == [] then []
    else
      var rest := Affordable(sizes[1..], held);
      if 0 < sizes[0] <= held then [sizes[0]] + rest else rest
  }

  predicate Payable(node: Node, o: Offer) {
    o.index < |node.states| && o.tokenIn != o.tokenOut && 0 < o.amount <= Held(node.balances, o.tokenIn)
  }

  function SizeOffers(index: nat, tokenIn: Address, tokenOut: Address, sizes: seq<int>): (offers: seq<Offer>)
    ensures forall o :: o in offers ==>
      o.index == index && o.tokenIn == tokenIn && o.tokenOut == tokenOut && o.amount in sizes
  {
    if sizes == [] then []
    else [Offer(index, tokenIn, tokenOut, sizes[0])] + SizeOffers(index, tokenIn, tokenOut, sizes[1..])
  }

  function OutputOffers(cfg: Settings, request: Request, node: Node, index: nat, tokenIn: Address, outs: seq<Address>)
    : (offers: seq<Offer>)
    requires index < |node.states|
    ensures forall o :: o in offers ==> Payable(node, o)
  {
    if outs == [] then []
    else
      var rest := OutputOffers(cfg, request, node, index, tokenIn, outs[1..]);
      var held := Held(node.balances, tokenIn);
      if outs[0] == tokenIn then rest
      else
        SizeOffers(index, tokenIn, outs[0],
                   Affordable(cfg.sizes(node.states[index], tokenIn, outs[0], held, request), held)) + rest
  }

  function InputOffers(cfg: Settings, request: Request, node: Node, index: nat, ins: seq<Address>): (offers: seq<Offer>)
    requires index < |node.states|
    ensures forall o :: o in offers ==> Payable(node, o)
  {
    if ins == [] then []
    else
      var rest := InputOffers(cfg, request, node, index, ins[1..]);
      if Held(node.balances, ins[0]) <= 0 then rest
      else OutputOffers(cfg, request, node, index, ins[0], node.states[index].tokens) + rest
  }

  /** Every pool, input token, output token and size that `_children` tries, in its order. */
  function Offers(cfg: Settings, request: Request, node: Node, index: nat): (offers: seq<Offer>)
    requires index <= |node.states|
    ensures forall o :: o in offers ==> Payable(node, o)
    decreases |node.states| - index
  {
    if index == |node.states| then []
    else InputOffers(cfg, request, node, index, node.states[index].tokens) + Offers(cfg, request, node, index + 1)
  }

  function Tidy(b: Ledger): Ledger {
    map t | t in b && b[t] != 0 :: b[t]
  }

  lemma TidyHolds(b: Ledger)
    ensures forall t :: Held(Tidy(b), t) == Held(b, t)
  {
  }

  /** The event of one offer; a non-positive output is passed over silently. */
  function EventOf(venue: Venue, node: Node, o: Offer): Option<Event>
    requires o.index < |node.states|
  {
    var state := node.states[o.index];
    match venue.swap(state, o.tokenIn, o.tokenOut, o.amount)
    case Unsupported(why) => Some(Refused(Refusal(state.poolId, o.tokenIn, o.tokenOut, o.amount, why)))
    case Swapped(amountOut, next) =>
      if amountOut <= 0 then None
      else Some(Child(Node(
        Tidy(Move(node.balances, o.tokenIn, o.amount, o.tokenOut, amountOut)),
        node.states[o.index := next],
        node.steps + [Step(state.poolId, o.tokenIn, o.tokenOut, o.amount)])))
  }

  function EventsOf(venue: Venue, node: Node, offers: seq<Offer>): (events: seq<Event>)
    requires forall o :: o in offers ==> Payable(node, o)
    ensures forall e :: e in events ==>
      exists o :: o in offers && Payable(node, o) && EventOf(venue, node, o) == Some(e)
  {
    if offers == [] then []
    else
      assert Payable(node, offers[0]);
      var rest := EventsOf(venue, node, offers[1..]);
      match EventOf(venue, node, offers[0])
      case None => rest
      case Some(e) => [e] + rest
  }

  function Children(cfg: Settings, venue: Venue, request: Request, node: Node): seq<Event> {
    EventsOf(venue, node, Offers(cfg, request, node, 0))
  }

  // ---------------------------------------------------------------- the search loop

  /** Everything the loop updates. */
  datatype Search = Search(
    unsupported: seq<Refusal>, truncated: bool, beamPruned: bool, refusals: seq<Reason>, completions: seq<Plan>,
    expansions: nat, seen: set<Key>, next: seq<Node>)

  function AddAllNew<T(==)>(items: seq<T>, more: seq<T>): seq<T>
    decreases |more|
  {
    if more == [] then items else AddAllNew(AddNew(items, more[0]), more[1..])
  }

  function PlanFor(request: Request, child: Node, depth: nat, s: Search): Plan {
    Plan(request, child.steps, "stateful-search", BeamInfo(depth, s.expansions, s.truncated, s.beamPruned))
  }

  /** Ask the evaluator about a child: a completion, or at the last depth a refusal to report. */
  function Judge(
    cfg: Settings, venue: Venue, request: Request, states: seq<PoolState>, depth: nat, s: Search, child: Node)
    : Search
  {
    var plan := PlanFor(request, child, depth + 1, s);
    var e := Evaluate(venue, plan, states);
    if e.feasible then s.(completions := s.completions + [plan])
    else if depth + 1 == cfg.maxSteps then s.(refusals := AddAllNew(s.refusals, e.reasons))
    else s
  }

  function Enqueue(cfg: Settings, s: Search, child: Node): Search {
    match cfg.key(child)
    case None => s.(next := s.next + [child])
    case Some(k) => if k in s.seen then s else s.(seen := s.seen + {k}, next := s.next + [child])
  }

  /** One turn of the innermost loop. `skip` is the rewrite; without it every child is judged. */
  function Visit(
    cfg: Settings, venue: Venue, request: Request, states: seq<PoolState>, depth: nat, skip: bool, s: Search, e: Event)
    : Search
  {
    if s.truncated then s
    else match e
      case Refused(item) => s.(unsupported := AddNew(s.unsupported, item))
      case Child(child) =>
        if s.expansions >= cfg.maxExpansions then s.(truncated := true)
        else
          var s1 := s.(expansions := s.expansions + 1);
          var s2 :=
            if !skip || depth + 1 == cfg.maxSteps || Held(child.balances, request.tokenIn.address) == 0
            then Judge(cfg, venue, request, states, depth, s1, child) else s1;
          Enqueue(cfg, s2, child)
  }

  function VisitAll(
    cfg: Settings, venue: Venue, request: Request, states: seq<PoolState>, depth: nat, skip: bool, s: Search,
    events: seq<Event>): Search
  {
    if events == [] then s
    else
      Visit(cfg, venue, request, states, depth, skip,
            VisitAll(cfg, venue, request, states, depth, skip, s, events[..|events| - 1]), events[|events| - 1])
  }

  function Level(
    cfg: Settings, venue: Venue, request: Request, states: seq<PoolState>, depth: nat, skip: bool, s: Search,
    frontier: seq<Node>): Search
  {
    if frontier == [] then s
    else
      var node := frontier[|frontier| - 1];
      VisitAll(cfg, venue, request, states, depth, skip,
               Level(cfg, venue, request, states, depth, skip, s, frontier[..|frontier| - 1]),
               Children(cfg, venue, request, node))
  }

  datatype Outcome = Outcome(search: Search, frontier: seq<Node>)

  /** The frontier for the next depth, with the beam flag that `_trim` raises. */
  function Advance(cfg: Settings, s: Search): Outcome {
    if cfg.exhaustive then Outcome(s, s.next)
    else Outcome(s.(beamPruned := s.beamPruned || |s.next| > cfg.beamWidth), cfg.trim(s.next))
  }

  function Deepen(
    cfg: Settings, venue: Venue, request: Request, states: seq<PoolState>, depth: nat, skip: bool, o: Outcome): Outcome
    requires depth <= cfg.maxSteps
    decreases cfg.maxSteps - depth
  {
    if depth == cfg.maxSteps then o
    else
      var s := Level(cfg, venue, request, states, depth, skip, o.search.(next := []), o.frontier);
      if s.truncated || s.next == [] then Outcome(s, o.frontier)
      else Deepen(cfg, venue, request, states, depth + 1, skip, Advance(cfg, s))
  }

  function Own(plans: seq<Plan>, request: Request): (own: seq<Plan>)
    ensures forall p :: p in own <==> p in plans && p.request == request
  {
    if plans == [] then []
    else if plans[0].request == request then [plans[0]] + Own(plans[1..], request) else Own(plans[1..], request)
  }

  function Opening(cfg: Settings, request: Request, states: seq<PoolState>): Outcome {
    Outcome(
      Search([], false, false, [], Own(cfg.incumbents, request), 0, {}, []),
      [Node(map[request.tokenIn.address := request.amountIn], states, [])])
  }

  /** The search proper: all that `solve` ranks and reports is a function of this outcome. */
  function Explore(cfg: Settings, venue: Venue, request: Request, states: seq<PoolState>, skip: bool): Outcome {
    Deepen(cfg, venue, request, states, 0, skip, Opening(cfg, request, states))
  }

  // ---------------------------------------------------------------- nodes replay through the evaluator

  ghost predicate KeepsIds(venue: Venue) {
    forall s, i, o, a :: venue.swap(s, i, o, a).Swapped? ==> venue.swap(s, i, o, a).next.poolId == s.poolId
  }

  ghost predicate TrimsOnly(cfg: Settings) {
    forall nodes, n :: n in cfg.trim(nodes) ==> n in nodes
  }

  function Ran(venue: Venue, request: Request, states: seq<PoolState>, node: Node): Run {
    Execute(venue, request.tokenIn.chain, node.steps, Start(request, PoolsById(states)))
  }

  ghost predicate SamePools(states: seq<PoolState>, node: Node) {
    |node.states| == |states| && forall i :: 0 <= i < |states| ==> node.states[i].poolId == states[i].poolId
  }

  ghost predicate SamePlace(run: Run, node: Node) {
    && (forall t :: Held(run.balances, t) == Held(node.balances, t))
    && (forall i :: 0 <= i < |node.states| ==>
         node.states[i].poolId in run.pools && run.pools[node.states[i].poolId] == node.states[i])
  }

  /** Replaying the node's steps from the initial states either fails or arrives exactly at the node. */
  ghost predicate Faithful(venue: Venue, request: Request, states: seq<PoolState>, node: Node) {
    && SamePools(states, node)
    && (Ran(venue, request, states, node).failure.None? ==> SamePlace(Ran(venue, request, states, node), node))
  }

  lemma InitialFaithful(cfg: Settings, venue: Venue, request: Request, states: seq<PoolState>)
    requires DistinctIds(states)
    ensures Faithful(venue, request, states, Opening(cfg, request, states).frontier[0])
  {
    PoolsByIdLists(states);
  }

  lemma ChildFaithful(venue: Venue, request: Request, states: seq<PoolState>, node: Node, o: Offer)
    requires DistinctIds(states) && KeepsIds(venue) && Faithful(venue, request, states, node) && Payable(node, o)
    requires EventOf(venue, node, o).Some? && EventOf(venue, node, o).value.Child?
    ensures Faithful(venue, request, states, EventOf(venue, node, o).value.node)
  {
    var child := EventOf(venue, node, o).value.node;
    ChildRun(venue, request, states, node, o);
    hide ExecuteStep, Execute, Ran, Move, Tidy;
    var before, after := Ran(venue, request, states, node), Ran(venue, request, states, child);
    if after.failure.None? {
      StepOutcome(venue, request.tokenIn.chain, |node.steps|, child.steps[|node.steps|], before);
      ChildBalances(before, after, node, o, venue);
      ChildPools(before, after, states, node, o, venue);
    }
  }

  /** The replay of a child is one more step of its parent's. */
  lemma ChildRun(venue: Venue, request: Request, states: seq<PoolState>, node: Node, o: Offer)
    requires o.index < |node.states| && EventOf(venue, node, o).Some? && EventOf(venue, node, o).value.Child?
    ensures var child := EventOf(venue, node, o).value.node;
      var before, after := Ran(venue, request, states, node), Ran(venue, request, states, child);
      && |child.steps| == |node.steps| + 1
      && child.steps[|node.steps|] == Step(node.states[o.index].poolId, o.tokenIn, o.tokenOut, o.amount)
      && after == (if before.failure.Some? then before
                   else ExecuteStep(venue, request.tokenIn.chain, |node.steps|, child.steps[|node.steps|], before))
  {
    hide ExecuteStep, Move, Tidy;
    var child := EventOf(venue, node, o).value.node;
    assert child.steps[..|child.steps| - 1] == node.steps;
  }

  lemma ChildBalances(before: Run, after: Run, node: Node, o: Offer, venue: Venue)
    requires Payable(node, o) && SamePlace(before, node)
    requires EventOf(venue, node, o).Some? && EventOf(venue, node, o).value.Child?
    requires var quote := venue.swap(node.states[o.index], o.tokenIn, o.tokenOut, o.amount);
      after.balances == Move(before.balances, o.tokenIn, o.amount, o.tokenOut, quote.amountOut)
    ensures forall t :: Held(after.balances, t) == Held(EventOf(venue, node, o).value.node.balances, t)
  {
    hide Move, Tidy, Held;
    var out := venue.swap(node.states[o.index], o.tokenIn, o.tokenOut, o.amount).amountOut;
    MoveChanges(before.balances, o.tokenIn, o.amount, o.tokenOut, out);
    MoveChanges(node.balances, o.tokenIn, o.amount, o.tokenOut, out);
    TidyHolds(Move(node.balances, o.tokenIn, o.amount, o.tokenOut, out));
  }

  lemma ChildPools(before: Run, after: Run, states: seq<PoolState>, node: Node, o: Offer, venue: Venue)
    requires DistinctIds(states) && KeepsIds(venue) && SamePools(states, node)
    requires Payable(node, o) && SamePlace(before, node)
    requires EventOf(venue, node, o).Some? && EventOf(venue, node, o).value.Child?
    requires var state := node.states[o.index];
      after.pools == before.pools[state.poolId := venue.swap(state, o.tokenIn, o.tokenOut, o.amount).next]
    ensures var child := EventOf(venue, node, o).value.node;
      && SamePools(states, child)
      && forall i :: 0 <= i < |child.states| ==>
           child.states[i].poolId in after.pools && after.pools[child.states[i].poolId] == child.states[i]
  {
    hide Move, Tidy, Held;
    var child := EventOf(venue, node, o).value.node;
    forall i | 0 <= i < |child.states|
      ensures child.states[i].poolId in after.pools && after.pools[child.states[i].poolId] == child.states[i]
    {
      if i != o.index {
        assert states[i].poolId != states[o.index].poolId;
      }
    }
  }

  lemma ChildrenFaithful(cfg: Settings, venue: Venue, request: Request, states: seq<PoolState>, node: Node)
    requires DistinctIds(states) && KeepsIds(venue) && Faithful(venue, request, states, node)
    ensures forall e :: e in Children(cfg, venue, request, node) && e.Child? ==>
      Faithful(venue, request, states, e.node)
  {
    forall e | e in Children(cfg, venue, request, node) && e.Child?
      ensures Faithful(venue, request, states, e.node)
    {
      var o :| o in Offers(cfg, request, node, 0) && Payable(node, o) && EventOf(venue, node, o) == Some(e);
      ChildFaithful(venue, request, states, node, o);
    }
  }

  /** The evaluator rejects any faithful node that still holds some of the input. */
  lemma HeldInputIsInfeasible(venue: Venue, request: Request, states: seq<PoolState>, node: Node, plan: Plan)
    requires Faithful(venue, request, states, node) && Held(node.balances, request.tokenIn.address) != 0
    requires plan.request == request && plan.steps == node.steps
    ensures !Evaluate(venue, plan, states).feasible
  {
    hide Execute;
  }

  // ---------------------------------------------------------------- the rewrite changes nothing

  ghost predicate AllFaithful(venue: Venue, request: Request, states: seq<PoolState>, nodes: seq<Node>) {
    forall n :: n in nodes ==> Faithful(venue, request, states, n)
  }

  ghost predicate FaithfulEvents(venue: Venue, request: Request, states: seq<PoolState>, events: seq<Event>) {
    forall e :: e in events && e.Child? ==> Faithful(venue, request, states, e.node)
  }

  lemma VisitSkips(
    cfg: Settings, venue: Venue, request: Request, states: seq<PoolState>, depth: nat, s: Search, e: Event)
    requires e.Child? ==> Faithful(venue, request, states, e.node)
    requires AllFaithful(venue, request, states, s.next)
    ensures Visit(cfg, venue, request, states, depth, true, s, e) ==
      Visit(cfg, venue, request, states, depth, false, s, e)
    ensures AllFaithful(venue, request, states, Visit(cfg, venue, request, states, depth, true, s, e).next)
  {
    hide Evaluate, Faithful;
    if e.Child? && Held(e.node.balances, request.tokenIn.address) != 0 {
      HeldInputIsInfeasible(venue, request, states, e.node,
                            PlanFor(request, e.node, depth + 1, s.(expansions := s.expansions + 1)));
    }
  }

  lemma {:induction false} VisitAllSkips(
    cfg: Settings, venue: Venue, request: Request, states: seq<PoolState>, depth: nat, s: Search, events: seq<Event>)
    requires FaithfulEvents(venue, request, states, events) && AllFaithful(venue, request, states, s.next)
    ensures VisitAll(cfg, venue, request, states, depth, true, s, events)
         == VisitAll(cfg, venue, request, states, depth, false, s, events)
    ensures AllFaithful(venue, request, states, VisitAll(cfg, venue, request, states, depth, true, s, events).next)
    decreases |events|
  {
    hide Visit, Faithful;
    if events != [] {
      var front := events[..|events| - 1];
      VisitAllSkips(cfg, venue, request, states, depth, s, front);
      VisitSkips(cfg, venue, request, states, depth,
                 VisitAll(cfg, venue, request, states, depth, true, s, front), events[|events| - 1]);
    }
  }

  lemma {:induction false} LevelSkips(
    cfg: Settings, venue: Venue, request: Request, states: seq<PoolState>, depth: nat, s: Search, frontier: seq<Node>)
    requires DistinctIds(states) && KeepsIds(venue)
    requires AllFaithful(venue, request, states, frontier) && AllFaithful(venue, request, states, s.next)
    ensures Level(cfg, venue, request, states, depth, true, s, frontier)
         == Level(cfg, venue, request, states, depth, false, s, frontier)
    ensures AllFaithful(venue, request, states, Level(cfg, venue, request, states, depth, true, s, frontier).next)
    decreases |frontier|
  {
    hide VisitAll, Faithful, Children, KeepsIds, DistinctIds;
    if frontier != [] {
      var front, node := frontier[..|frontier| - 1], frontier[|frontier| - 1];
      LevelSkips(cfg, venue, request, states, depth, s, front);
      ChildrenFaithful(cfg, venue, request, states, node);
      VisitAllSkips(cfg, venue, request, states, depth,
                    Level(cfg, venue, request, states, depth, true, s, front), Children(cfg, venue, request, node));
    }
  }

  lemma {:induction false} DeepenSkips(
    cfg: Settings, venue: Venue, request: Request, states: seq<PoolState>, depth: nat, o: Outcome)
    requires DistinctIds(states) && KeepsIds(venue) && TrimsOnly(cfg) && depth <= cfg.maxSteps
    requires AllFaithful(venue, request, states, o.frontier)
    ensures Deepen(cfg, venue, request, states, depth, true, o) == Deepen(cfg, venue, request, states, depth, false, o)
    ensures AllFaithful(venue, request, states, Deepen(cfg, venue, request, states, depth, true, o).frontier)
    decreases cfg.maxSteps - depth
  {
    hide Level, Faithful, KeepsIds, DistinctIds;
    if depth < cfg.maxSteps {
      var start := o.search.(next := []);
      LevelSkips(cfg, venue, request, states, depth, start, o.frontier);
      var s := Level(cfg, venue, request, states, depth, true, start, o.frontier);
      if !s.truncated && s.next != [] {
        DeepenSkips(cfg, venue, request, states, depth + 1, Advance(cfg, s));
      }
    }
  }

  /** The residual skip is invisible: completions in order, refusals, diagnostics, frontier, seen keys,
      expansion count and flags are all those of the search that judges every child. */
  lemma SkipIsInvisible(cfg: Settings, venue: Venue, request: Request, states: seq<PoolState>)
    requires DistinctIds(states) && KeepsIds(venue) && TrimsOnly(cfg)
    ensures Explore(cfg, venue, request, states, true) == Explore(cfg, venue, request, states, false)
  {
    hide Deepen;
    InitialFaithful(cfg, venue, request, states);
    DeepenSkips(cfg, venue, request, states, 0, Opening(cfg, request, states));
  }

  // ---------------------------------------------------------------- budget and soundness of completions

  ghost predicate Sound(cfg: Settings, venue: Venue, request: Request, states: seq<PoolState>, s: Search) {
    && s.expansions <= cfg.maxExpansions
    && (s.truncated ==> s.expansions == cfg.maxExpansions)
    && forall p :: p in s.completions ==>
         p.request == request && (p in cfg.incumbents || Evaluate(venue, p, states).feasible)
  }

  lemma VisitSound(
    cfg: Settings, venue: Venue, request: Request, states: seq<PoolState>, depth: nat, skip: bool, s: Search, e: Event)
    requires Sound(cfg, venue, request, states, s)
    ensures Sound(cfg, venue, request, states, Visit(cfg, venue, request, states, depth, skip, s, e))
  {
    hide Evaluate;
  }

  lemma {:induction false} VisitAllSound(
    cfg: Settings, venue: Venue, request: Request, states: seq<PoolState>, depth: nat, skip: bool, s: Search,
    events: seq<Event>)
    requires Sound(cfg, venue, request, states, s)
    ensures Sound(cfg, venue, request, states, VisitAll(cfg, venue, request, states, depth, skip, s, events))
    decreases |events|
  {
    hide Sound, Visit;
    if events != [] {
      VisitAllSound(cfg, venue, request, states, depth, skip, s, events[..|events| - 1]);
      VisitSound(cfg, venue, request, states, depth, skip,
                 VisitAll(cfg, venue, request, states, depth, skip, s, events[..|events| - 1]), events[|events| - 1]);
    }
  }

  lemma {:induction false} LevelSound(
    cfg: Settings, venue: Venue, request: Request, states: seq<PoolState>, depth: nat, skip: bool, s: Search,
    frontier: seq<Node>)
    requires Sound(cfg, venue, request, states, s)
    ensures Sound(cfg, venue, request, states, Level(cfg, venue, request, states, depth, skip, s, frontier))
    decreases |frontier|
  {
    hide VisitAll, Sound, Children;
    if frontier != [] {
      var front := frontier[..|frontier| - 1];
      LevelSound(cfg, venue, request, states, depth, skip, s, front);
      VisitAllSound(cfg, venue, request, states, depth, skip,
                    Level(cfg, venue, request, states, depth, skip, s, front),
                    Children(cfg, venue, request, frontier[|frontier| - 1]));
    }
  }

  lemma {:induction false} DeepenSound(
    cfg: Settings, venue: Venue, request: Request, states: seq<PoolState>, depth: nat, skip: bool, o: Outcome)
    requires depth <= cfg.maxSteps && Sound(cfg, venue, request, states, o.search)
    ensures Sound(cfg, venue, request, states, Deepen(cfg, venue, request, states, depth, skip, o).search)
    decreases cfg.maxSteps - depth
  {
    hide Level, Evaluate;
    if depth < cfg.maxSteps {
      LevelSound(cfg, venue, request, states, depth, skip, o.search.(next := []), o.frontier);
      var s := Level(cfg, venue, request, states, depth, skip, o.search.(next := []), o.frontier);
      if !s.truncated && s.next != [] {
        DeepenSound(cfg, venue, request, states, depth + 1, skip, Advance(cfg, s));
      }
    }
  }

  /** Both searches keep to the expansion budget, are truncated only when it is used up, and complete only
      with feasible plans or incumbents of the same request. */
  lemma ExploreIsSound(cfg: Settings, venue: Venue, request: Request, states: seq<PoolState>, skip: bool)
    ensures Sound(cfg, venue, request, states, Explore(cfg, venue, request, states, skip).search)
  {
    hide Deepen, Evaluate;
    DeepenSound(cfg, venue, request, states, 0, skip, Opening(cfg, request, states));
  }

  // ---------------------------------------------------------------- the solver object

  /** `GeneralSearchSolver` with the fields that `solve` resets and updates. */
  class GeneralSearchSolver {
    const cfg: Settings
    var unsupported: seq<Refusal>
    var truncated: bool
    var beamPruned: bool
    var terminalRefusals: seq<Reason>

    constructor (cfg: Settings)
      ensures this.cfg == cfg && unsupported == [] && !truncated && !beamPruned && terminalRefusals == []
    {
      this.cfg := cfg;
      unsupported, truncated, beamPruned, terminalRefusals := [], false, false, [];
    }

    /** The fields, read together with the locals of `solve`. */
    ghost function Now(completions: seq<Plan>, expansions: nat, seen: set<Key>, next: seq<Node>): Search
      reads this
    {
      Search(unsupported, truncated, beamPruned, terminalRefusals, completions, expansions, seen, next)
    }

    /** The body of the innermost loop for one child. */
    method VisitChild(
      venue: Venue, request: Request, states: seq<PoolState>, depth: nat, skip: bool, child: Node,
      completions: seq<Plan>, expansions: nat, seen: set<Key>, next: seq<Node>)
      returns (completions': seq<Plan>, expansions': nat, seen': set<Key>, next': seq<Node>)
      requires !truncated
      modifies this
      ensures Now(completions', expansions', seen', next')
           == Visit(
                cfg, venue, request, states, depth, skip, old(Now(completions, expansions, seen, next)), Child(child))
    {
      hide Evaluate;
      completions', expansions', seen', next' := completions, expansions, seen, next;
      if expansions >= cfg.maxExpansions {
        truncated := true;
        return;
      }
      expansions' := expansions + 1;
      if !skip || depth + 1 == cfg.maxSteps || Held(child.balances, request.tokenIn.address) == 0 {
        var info := BeamInfo(depth + 1, expansions', truncated, beamPruned);
        var plan := Plan(request, child.steps, "stateful-search", info);
        var e := EvaluatePlan(venue, plan, states);
        if e.feasible {
          completions' := completions' + [plan];
        } else if depth + 1 == cfg.maxSteps {
          terminalRefusals := AddAllNew(terminalRefusals, e.reasons);
        }
      }
      var key := cfg.key(child);
      if key.None? || key.value !in seen' {
        if key.Some? {
          seen' := seen' + {key.value};
        }
        next' := next' + [child];
      }
    }

    /** The children of one frontier node. */
    method VisitNode(
      venue: Venue, request: Request, states: seq<PoolState>, depth: nat, skip: bool, node: Node,
      completions: seq<Plan>, expansions: nat, seen: set<Key>, next: seq<Node>)
      returns (completions': seq<Plan>, expansions': nat, seen': set<Key>, next': seq<Node>)
      modifies this
      ensures Now(completions', expansions', seen', next')
           == VisitAll(cfg, venue, request, states, depth, skip, old(Now(completions, expansions, seen, next)),
                       Children(cfg, venue, request, node))
    {
      hide Visit, Children;
      var events := Children(cfg, venue, request, node);
      ghost var start := Now(completions, expansions, seen, next);
      completions', expansions', seen', next' := completions, expansions, seen, next;
      var k := 0;
      while k < |events| && !truncated
        invariant 0 <= k <= |events|
        invariant Now(completions', expansions', seen', next')
               == VisitAll(cfg, venue, request, states, depth, skip, start, events[..k])
      {
        assert events[..k + 1][..k] == events[..k];
        ghost var before := Now(completions', expansions', seen', next');
        match events[k] {
          case Refused(item) =>
            RefusalOnly(cfg, venue, request, states, depth, skip, before, events[k]);
            unsupported := AddNew(unsupported, item);
          case Child(child) =>
            completions', expansions', seen', next' :=
              VisitChild(venue, request, states, depth, skip, child, completions', expansions', seen', next');
        }
        k := k + 1;
      }
      assert events[..|events|] == events;
      if truncated {
        TruncationStops(cfg, venue, request, states, depth, skip, start, events, k);
      }
    }

    /** One depth: the nodes of the frontier until the budget is used up. */
    method VisitFrontier(
      venue: Venue, request: Request, states: seq<PoolState>, depth: nat, skip: bool, frontier: seq<Node>,
      completions: seq<Plan>, expansions: nat, seen: set<Key>)
      returns (completions': seq<Plan>, expansions': nat, seen': set<Key>, next': seq<Node>)
      modifies this
      ensures Now(completions', expansions', seen', next')
           == Level(cfg, venue, request, states, depth, skip, old(Now(completions, expansions, seen, [])), frontier)
    {
      hide VisitAll, Children;
      completions', expansions', seen', next' := completions, expansions, seen, [];
      ghost var start := Now(completions, expansions, seen, []);
      var i := 0;
      while i < |frontier| && !truncated
        invariant 0 <= i <= |frontier|
        invariant Now(completions', expansions', seen', next')
               == Level(cfg, venue, request, states, depth, skip, start, frontier[..i])
      {
        assert frontier[..i + 1][..i] == frontier[..i];
        completions', expansions', seen', next' :=
          VisitNode(venue, request, states, depth, skip, frontier[i], completions', expansions', seen', next');
        i := i + 1;
      }
      assert frontier[..|frontier|] == frontier;
      if truncated {
        LevelStops(cfg, venue, request, states, depth, skip, start, frontier, i);
      }
    }

    /** `solve` up to its ranking: None where the request is refused. */
    method Solve(venue: Venue, request: Request, states: seq<PoolState>, skip: bool) returns (r: Option<Outcome>)
      modifies this
      ensures r.Some? <==> ValidRequest(request)
      ensures r.None? ==> unchanged(this)
      ensures r.Some? ==>
        && r.value == Explore(cfg, venue, request, states, skip)
        && var s := r.value.search; s == Now(s.completions, s.expansions, s.seen, s.next)
    {
      hide Level;
      if !ValidRequest(request) {
        return None;
      }
      unsupported, truncated, beamPruned, terminalRefusals := [], false, false, [];
      var frontier := [Node(map[request.tokenIn.address := request.amountIn], states, [])];
      var completions, expansions, seen := Own(cfg.incumbents, request), 0, {};
      var next: seq<Node> := [];
      var depth := 0;
      ghost var explored := Explore(cfg, venue, request, states, skip);
      while depth < cfg.maxSteps
        invariant 0 <= depth <= cfg.maxSteps
        invariant Deepen(cfg, venue, request, states, depth, skip,
                         Outcome(Now(completions, expansions, seen, next), frontier)) == explored
      {
        completions, expansions, seen, next :=
          VisitFrontier(venue, request, states, depth, skip, frontier, completions, expansions, seen);
        if truncated || next == [] {
          return Some(Outcome(
            Search(unsupported, truncated, beamPruned, terminalRefusals, completions, expansions, seen, next),
            frontier));
        }
        if cfg.exhaustive {
          frontier := next;
        } else {
          beamPruned := beamPruned || |next| > cfg.beamWidth;
          frontier := cfg.trim(next);
        }
        depth := depth + 1;
      }
      r := Some(Outcome(
        Search(unsupported, truncated, beamPruned, terminalRefusals, completions, expansions, seen, next), frontier));
    }
  }

  lemma RefusalOnly(
    cfg: Settings, venue: Venue, request: Request, states: seq<PoolState>, depth: nat, skip: bool, s: Search, e: Event)
    requires e.Refused? && !s.truncated
    ensures Visit(cfg, venue, request, states, depth, skip, s, e) == s.(unsupported := AddNew(s.unsupported, e.item))
  {
  }

  /** Once truncated, the rest of the loop is a no-op: the source's `break`. */
  lemma {:induction false} TruncationStops(
    cfg: Settings, venue: Venue, request: Request, states: seq<PoolState>, depth: nat, skip: bool, s: Search,
    events: seq<Event>, k: nat)
    requires k <= |events| && VisitAll(cfg, venue, request, states, depth, skip, s, events[..k]).truncated
    ensures VisitAll(cfg, venue, request, states, depth, skip, s, events)
         == VisitAll(cfg, venue, request, states, depth, skip, s, events[..k])
    decreases |events|
  {
    if k < |events| {
      var front := events[..|events| - 1];
      assert front[..k] == events[..k];
      TruncationStops(cfg, venue, request, states, depth, skip, s, front, k);
    } else {
      assert events[..k] == events;
    }
  }

  lemma {:induction false} LevelStops(
    cfg: Settings, venue: Venue, request: Request, states: seq<PoolState>, depth: nat, skip: bool, s: Search,
    frontier: seq<Node>, i: nat)
    requires i <= |frontier| && Level(cfg, venue, request, states, depth, skip, s, frontier[..i]).truncated
    ensures Level(cfg, venue, request, states, depth, skip, s, frontier)
         == Level(cfg, venue, request, states, depth, skip, s, frontier[..i])
    decreases |frontier|
  {
    hide Visit, Children;
    if i < |frontier| {
      var front := frontier[..|frontier| - 1];
      assert front[..i] == frontier[..i];
      LevelStops(cfg, venue, request, states, depth, skip, s, front, i);
      var before := Level(cfg, venue, request, states, depth, skip, s, front);
      var events := Children(cfg, venue, request, frontier[|frontier| - 1]);
      assert events[..0] == [];
      TruncationStops(cfg, venue, request, states, depth, skip, before, events, 0);
    } else {
      assert frontier[..i] == frontier;
    }
  }
}
