/** Which plans the bounded search completes, which swaps it reports as unsupported and which refusals as terminal:
    all that a chain of payable steps leads to, unless it says that it was truncated or pruned. */
module SearchCoverage {
  import opened Market
  import opened Evaluator
  import opened Lists
  import opened BeamSearch
  import opened EvaluationCache

  // ---------------------------------------------------------------- chains of payable steps

  /** A pool, two different tokens of it, and a listed size that the node can pay. */
  predicate Open(cfg: Settings, request: Request, n: Node, o: Offer) {
    && o.index < |n.states|
    && var state, held := n.states[o.index], Held(n.balances, o.tokenIn);
    && o.tokenIn in state.tokens && o.tokenOut in state.tokens && o.tokenIn != o.tokenOut
    && 0 < o.amount <= held && o.amount in cfg.sizes(state, o.tokenIn, o.tokenOut, held, request)
  }

  /** The step pays: it moves the balances, replaces the pool's state, and is written down. */
  ghost predicate Takes(cfg: Settings, venue: Venue, request: Request, n: Node, o: Offer, m: Node) {
    && Open(cfg, request, n, o)
    && var quote := venue.swap(n.states[o.index], o.tokenIn, o.tokenOut, o.amount);
    && quote.Swapped? && quote.amountOut > 0
    && m.states == n.states[o.index := quote.next]
    && m.steps == n.steps + [Step(n.states[o.index].poolId, o.tokenIn, o.tokenOut, o.amount)]
    && (forall t :: Held(m.balances, t) ==
          Held(n.balances, t) - If(t == o.tokenIn, o.amount) + If(t == o.tokenOut, quote.amountOut))
    && forall t :: t in m.balances ==> m.balances[t] != 0
  }

  /** The pool answers that it does not support the step. */
  ghost predicate Refuses(cfg: Settings, venue: Venue, request: Request, n: Node, o: Offer, item: Refusal) {
    && Open(cfg, request, n, o)
    && var state := n.states[o.index];
       venue.swap(state, o.tokenIn, o.tokenOut, o.amount) == Unsupported(item.why)
       && item == Refusal(state.poolId, o.tokenIn, o.tokenOut, o.amount, item.why)
  }

  /** A chain of so many steps leads here from the request's input and the given states. */
  ghost predicate Reachable(cfg: Settings, venue: Venue, request: Request, states: seq<PoolState>, n: Node, depth: nat)
    decreases depth
  {
    if depth == 0 then n == Node(map[request.tokenIn.address := request.amountIn], states, [])
    else
      exists prev, o ::
        Reachable(cfg, venue, request, states, prev, depth - 1) && Takes(cfg, venue, request, prev, o, n)
  }

  // ---------------------------------------------------------------- the child generator is exact

  lemma {:induction false} AffordableAreAll(sizes: seq<int>, held: int, a: int)
    ensures a in Affordable(sizes, held) <==> a in sizes && 0 < a <= held
  {
    if sizes != [] {
      AffordableAreAll(sizes[1..], held, a);
    }
  }

  lemma {:induction false} SizeOffersAreAll(index: nat, tokenIn: Address, tokenOut: Address, sizes: seq<int>, o: Offer)
    ensures o in SizeOffers(index, tokenIn, tokenOut, sizes) <==>
      o.index == index && o.tokenIn == tokenIn && o.tokenOut == tokenOut && o.amount in sizes
  {
    if sizes != [] {
      SizeOffersAreAll(index, tokenIn, tokenOut, sizes[1..], o);
    }
  }

  lemma {:induction false} OutputOffersAreAll(
    cfg: Settings, request: Request, node: Node, index: nat, tokenIn: Address, outs: seq<Address>, o: Offer)
    requires index < |node.states|
    ensures o in OutputOffers(cfg, request, node, index, tokenIn, outs) <==>
      && o.index == index && o.tokenIn == tokenIn && o.tokenOut in outs && o.tokenOut != tokenIn
      && var held := Held(node.balances, tokenIn);
         0 < o.amount <= held && o.amount in cfg.sizes(node.states[index], tokenIn, o.tokenOut, held, request)
  {
    if outs != [] {
      OutputOffersAreAll(cfg, request, node, index, tokenIn, outs[1..], o);
      var held := Held(node.balances, tokenIn);
      var sizes := cfg.sizes(node.states[index], tokenIn, outs[0], held, request);
      AffordableAreAll(sizes, held, o.amount);
      SizeOffersAreAll(index, tokenIn, outs[0], Affordable(sizes, held), o);
    }
  }

  /** What is open to the node through one pool and one of these input tokens. */
  predicate OpenAt(cfg: Settings, request: Request, n: Node, index: nat, ins: seq<Address>, o: Offer)
    requires index < |n.states|
  {
    && o.index == index && o.tokenIn in ins && o.tokenOut in n.states[index].tokens && o.tokenIn != o.tokenOut
    && var held := Held(n.balances, o.tokenIn);
       0 < o.amount <= held && o.amount in cfg.sizes(n.states[index], o.tokenIn, o.tokenOut, held, request)
  }

  lemma {:induction false} InputOffersAreAll(
    cfg: Settings, request: Request, node: Node, index: nat, ins: seq<Address>, o: Offer)
    requires index < |node.states|
    ensures o in InputOffers(cfg, request, node, index, ins) <==> OpenAt(cfg, request, node, index, ins, o)
  {
    if ins != [] {
      InputOffersAreAll(cfg, request, node, index, ins[1..], o);
      OutputOffersAreAll(cfg, request, node, index, ins[0], node.states[index].tokens, o);
    }
  }

  lemma {:induction false} OffersFrom(cfg: Settings, request: Request, node: Node, index: nat, o: Offer)
    requires index <= |node.states|
    ensures o in Offers(cfg, request, node, index) <==> index <= o.index && Open(cfg, request, node, o)
    decreases |node.states| - index
  {
    if index < |node.states| {
      OffersFrom(cfg, request, node, index + 1, o);
      InputOffersAreAll(cfg, request, node, index, node.states[index].tokens, o);
    }
  }

  lemma {:induction false} EventsAreAll(venue: Venue, node: Node, offers: seq<Offer>, o: Offer)
    requires forall p :: p in offers ==> Payable(node, p)
    requires o in offers && Payable(node, o) && EventOf(venue, node, o).Some?
    ensures EventOf(venue, node, o).value in EventsOf(venue, node, offers)
  {
    if offers[0] != o {
      EventsAreAll(venue, node, offers[1..], o);
    }
  }

  lemma SameBalances(b: Ledger, c: Ledger)
    requires forall t :: Held(b, t) == Held(c, t)
    requires (forall t :: t in b ==> b[t] != 0) && (forall t :: t in c ==> c[t] != 0)
    ensures b == c
  {
    forall t
      ensures t in b <==> t in c
      ensures t in b ==> b[t] == c[t]
    {
      assert Held(b, t) == Held(c, t);
    }
  }

  /** An open offer yields exactly the step that it takes, or the refusal. */
  lemma EventIffTakes(cfg: Settings, venue: Venue, request: Request, n: Node, o: Offer, m: Node)
    requires Open(cfg, request, n, o)
    ensures EventOf(venue, n, o) == Some(Child(m)) <==> Takes(cfg, venue, request, n, o, m)
  {
    var quote := venue.swap(n.states[o.index], o.tokenIn, o.tokenOut, o.amount);
    if quote.Swapped? {
      var moved := Move(n.balances, o.tokenIn, o.amount, o.tokenOut, quote.amountOut);
      MoveChanges(n.balances, o.tokenIn, o.amount, o.tokenOut, quote.amountOut);
      TidyHolds(moved);
      if Takes(cfg, venue, request, n, o, m) {
        SameBalances(Tidy(moved), m.balances);
      }
    }
  }

  /** The children of a node are exactly what its payable steps lead to. */
  lemma ChildrenAreAll(cfg: Settings, venue: Venue, request: Request, n: Node, m: Node)
    ensures Child(m) in Children(cfg, venue, request, n) <==> exists o :: Takes(cfg, venue, request, n, o, m)
  {
    hide Takes, EventOf, Offers;
    var offers := Offers(cfg, request, n, 0);
    if Child(m) in Children(cfg, venue, request, n) {
      var o :| o in offers && Payable(n, o) && EventOf(venue, n, o) == Some(Child(m));
      OffersFrom(cfg, request, n, 0, o);
      EventIffTakes(cfg, venue, request, n, o, m);
    }
    if o :| Takes(cfg, venue, request, n, o, m) {
      TakesIsOpen(cfg, venue, request, n, o, m);
      OffersFrom(cfg, request, n, 0, o);
      EventIffTakes(cfg, venue, request, n, o, m);
      EventsAreAll(venue, n, offers, o);
    }
  }

  lemma TakesIsOpen(cfg: Settings, venue: Venue, request: Request, n: Node, o: Offer, m: Node)
    requires Takes(cfg, venue, request, n, o, m)
    ensures Open(cfg, request, n, o)
  {
  }

  /** The refusals that a node records are exactly those of its open offers. */
  lemma RefusalsAreAll(cfg: Settings, venue: Venue, request: Request, n: Node, item: Refusal)
    ensures Refused(item) in Children(cfg, venue, request, n) <==>
      exists o :: Refuses(cfg, venue, request, n, o, item)
  {
    hide Offers;
    var offers := Offers(cfg, request, n, 0);
    if Refused(item) in Children(cfg, venue, request, n) {
      var o :| o in offers && Payable(n, o) && EventOf(venue, n, o) == Some(Refused(item));
      OffersFrom(cfg, request, n, 0, o);
      assert Refuses(cfg, venue, request, n, o, item);
    }
    if o :| Refuses(cfg, venue, request, n, o, item) {
      OffersFrom(cfg, request, n, 0, o);
      EventsAreAll(venue, n, offers, o);
    }
  }

  // ---------------------------------------------------------------- what recognising equal nodes may drop

  /** Nodes with one key hold the same in the same states after equally many steps, and no state of them is a LitePSM;
      a node without a key is never taken for another. */
  ghost predicate KeysTell(cfg: Settings) {
    forall n, m :: cfg.key(n).Some? && cfg.key(n) == cfg.key(m) ==>
      SameSpot(n, m) && NoPsm(n.states)
  }

  predicate NoPsm(states: seq<PoolState>) {
    forall i :: 0 <= i < |states| ==> states[i].psm.None?
  }

  /** A swap does not change what a pool is. */
  ghost predicate KeepsPsm(venue: Venue) {
    forall s, i, o, a :: venue.swap(s, i, o, a).Swapped? ==> venue.swap(s, i, o, a).next.psm == s.psm
  }

  predicate SameSpot(n: Node, m: Node) {
    n.balances == m.balances && n.states == m.states && |n.steps| == |m.steps|
  }

  ghost predicate Keyless(cfg: Settings) {
    forall n :: cfg.key(n).None?
  }

  /** The same node, or one that may stand in for it. */
  ghost predicate Alike(cfg: Settings, n: Node, m: Node) {
    n == m || (!Keyless(cfg) && SameSpot(n, m) && NoPsm(n.states))
  }

  lemma AlikeTakesAlike(cfg: Settings, venue: Venue, request: Request, n: Node, t: Node, o: Offer, m: Node)
    returns (u: Node)
    requires Alike(cfg, n, t) && Takes(cfg, venue, request, n, o, m) && (Keyless(cfg) || KeepsPsm(venue))
    ensures Takes(cfg, venue, request, t, o, u) && Alike(cfg, m, u)
  {
    u := Node(m.balances, m.states, t.steps + [m.steps[|m.steps| - 1]]);
    assert n == t ==> u == m;
  }

  /** Every key seen is that of a node of an earlier depth or of the next frontier. */
  ghost predicate SeenKept(cfg: Settings, s: Search, depth: nat) {
    forall k :: k in s.seen ==> exists n :: cfg.key(n) == Some(k) && (|n.steps| <= depth || n in s.next)
  }

  // ---------------------------------------------------------------- nothing is left out

  /** Some completion has these steps. */
  ghost predicate Completed(s: Search, request: Request, steps: seq<Step>) {
    exists q :: q in s.completions && q.request == request && q.steps == steps
  }

  /** The child has been judged: it is completed if it is accepted; at the last depth its refusals are noted. */
  ghost predicate Judged(
    cfg: Settings, venue: Venue, request: Request, states: seq<PoolState>, s: Search, depth: nat, m: Node)
  {
    forall p: Plan :: p.request == request && p.steps == m.steps ==>
      var e := Evaluate(venue, p, states);
      && (e.feasible ==> Completed(s, request, m.steps))
      && (!e.feasible && depth == cfg.maxSteps ==> forall r :: r in e.reasons ==> r in s.refusals)
  }

  /** Among these nodes is the node, or one like it. */
  ghost predicate HasLike(cfg: Settings, nodes: seq<Node>, m: Node) {
    exists t :: t in nodes && Alike(cfg, m, t)
  }

  /** What an event is to leave behind, whatever follows. */
  ghost predicate Handled(
    cfg: Settings, venue: Venue, request: Request, states: seq<PoolState>, s: Search, depth: nat, e: Event)
  {
    match e
    case Refused(item) => item in s.unsupported
    case Child(m) => Judged(cfg, venue, request, states, s, depth + 1, m) && HasLike(cfg, s.next, m)
  }

  ghost predicate Grew(s: Search, t: Search) {
    && (forall p :: p in s.completions ==> p in t.completions)
    && (forall r :: r in s.refusals ==> r in t.refusals)
    && (forall r :: r in s.unsupported ==> r in t.unsupported)
    && (forall n :: n in s.next ==> n in t.next)
    && (s.truncated ==> t.truncated)
  }

  lemma GrewKeeps(
    cfg: Settings, venue: Venue, request: Request, states: seq<PoolState>, s: Search, t: Search, depth: nat, e: Event)
    requires Grew(s, t) && Handled(cfg, venue, request, states, s, depth, e)
    ensures Handled(cfg, venue, request, states, t, depth, e)
  {
    hide Evaluate;
    if e.Child? {
      JudgedStays(cfg, venue, request, states, s, t, depth + 1, e.node);
      hide Judged, Alike;
    }
  }

  lemma JudgedStays(
    cfg: Settings, venue: Venue, request: Request, states: seq<PoolState>, s: Search, t: Search, depth: nat, m: Node)
    requires (forall p :: p in s.completions ==> p in t.completions)
      && (forall r :: r in s.refusals ==> r in t.refusals)
    requires Judged(cfg, venue, request, states, s, depth, m)
    ensures Judged(cfg, venue, request, states, t, depth, m)
  {
    hide Evaluate;
    assert Completed(s, request, m.steps) ==> Completed(t, request, m.steps);
  }

  lemma {:induction false} AddAllNewAdds<T>(items: seq<T>, more: seq<T>)
    ensures forall x :: x in AddAllNew(items, more) <==> x in items || x in more
    ensures Distinct(items) ==> Distinct(AddAllNew(items, more))
    decreases |more|
  {
    if more != [] {
      AddNewAdds(items, more[0]);
      AddAllNewAdds(AddNew(items, more[0]), more[1..]);
      assert more == [more[0]] + more[1..];
    }
  }

  /** One turn without truncation handles its event. */
  lemma VisitHandles(
    cfg: Settings, venue: Venue, request: Request, states: seq<PoolState>, depth: nat, s: Search, e: Event)
    requires KeysTell(cfg) && SeenKept(cfg, s, depth) && (e.Child? ==> |e.node.steps| == depth + 1)
    ensures var t := Visit(cfg, venue, request, states, depth, false, s, e);
      && Grew(s, t) && SeenKept(cfg, t, depth)
      && (!t.truncated ==> Handled(cfg, venue, request, states, t, depth, e))
  {
    hide Evaluate, Judged, AddAllNew, KeysTell, Alike;
    match e {
      case Refused(item) =>
        AddNewAdds(s.unsupported, item);
      case Child(m) =>
        if !s.truncated && s.expansions < cfg.maxExpansions {
          JudgeJudges(cfg, venue, request, states, depth, s.(expansions := s.expansions + 1), m);
          var judged := Judge(cfg, venue, request, states, depth, s.(expansions := s.expansions + 1), m);
          hide Judge;
          JudgedStays(cfg, venue, request, states, judged, Enqueue(cfg, judged, m), depth + 1, m);
          EnqueueHasLike(cfg, judged, m, depth);
        }
    }
  }

  lemma EnqueueHasLike(cfg: Settings, s: Search, m: Node, depth: nat)
    requires KeysTell(cfg) && SeenKept(cfg, s, depth) && |m.steps| == depth + 1
    ensures var t := Enqueue(cfg, s, m); HasLike(cfg, t.next, m) && SeenKept(cfg, t, depth)
  {
    var t := Enqueue(cfg, s, m);
    if cfg.key(m).Some? && cfg.key(m).value in s.seen {
      var n :| cfg.key(n) == cfg.key(m) && (|n.steps| <= depth || n in s.next);
      assert SameSpot(m, n) && !Keyless(cfg) && NoPsm(m.states);
      assert n in t.next && Alike(cfg, m, n);
    } else {
      assert m in t.next && Alike(cfg, m, m);
      forall k | k in t.seen
        ensures exists n :: cfg.key(n) == Some(k) && (|n.steps| <= depth || n in t.next)
      {
        if k in s.seen {
          var n :| cfg.key(n) == Some(k) && (|n.steps| <= depth || n in s.next);
          assert |n.steps| <= depth || n in t.next;
        }
      }
    }
  }

  lemma JudgeJudges(
    cfg: Settings, venue: Venue, request: Request, states: seq<PoolState>, depth: nat, s: Search, m: Node)
    ensures var t := Judge(cfg, venue, request, states, depth, s, m);
      && Grew(s, t) && Judged(cfg, venue, request, states, t, depth + 1, m)
      && t.next == s.next && t.seen == s.seen && t.truncated == s.truncated
  {
    var plan := PlanFor(request, m, depth + 1, s);
    var t := Judge(cfg, venue, request, states, depth, s, m);
    AddAllNewAdds(s.refusals, Evaluate(venue, plan, states).reasons);
    forall p: Plan | p.request == request && p.steps == m.steps
      ensures Evaluate(venue, p, states).feasible == Evaluate(venue, plan, states).feasible
      ensures Evaluate(venue, p, states).reasons == Evaluate(venue, plan, states).reasons
    {
      ProvenanceIsIgnored(venue, p, plan, states);
    }
    hide Evaluate, AddAllNew;
    if Evaluate(venue, plan, states).feasible {
      assert plan in t.completions;
      assert Completed(t, request, m.steps);
    }
  }

  lemma {:induction false} VisitAllHandles(
    cfg: Settings, venue: Venue, request: Request, states: seq<PoolState>, depth: nat, s: Search, events: seq<Event>)
    requires KeysTell(cfg) && SeenKept(cfg, s, depth)
    requires forall e :: e in events && e.Child? ==> |e.node.steps| == depth + 1
    ensures var t := VisitAll(cfg, venue, request, states, depth, false, s, events);
      && Grew(s, t) && SeenKept(cfg, t, depth)
      && (!t.truncated ==> forall e :: e in events ==> Handled(cfg, venue, request, states, t, depth, e))
    decreases |events|
  {
    hide Visit, Handled, KeysTell, SeenKept;
    if events != [] {
      var front, e := events[..|events| - 1], events[|events| - 1];
      assert events == front + [e];
      VisitAllHandles(cfg, venue, request, states, depth, s, front);
      var mid := VisitAll(cfg, venue, request, states, depth, false, s, front);
      VisitHandles(cfg, venue, request, states, depth, mid, e);
      var t := Visit(cfg, venue, request, states, depth, false, mid, e);
      forall d | d in front && !t.truncated
        ensures Handled(cfg, venue, request, states, t, depth, d)
      {
        GrewKeeps(cfg, venue, request, states, mid, t, depth, d);
      }
    }
  }

  /** All that a node leads to has been handled. */
  ghost predicate Expanded(
    cfg: Settings, venue: Venue, request: Request, states: seq<PoolState>, s: Search, depth: nat, n: Node)
  {
    && (forall o, m :: Takes(cfg, venue, request, n, o, m) ==>
          Judged(cfg, venue, request, states, s, depth + 1, m) && HasLike(cfg, s.next, m))
    && forall o, item :: Refuses(cfg, venue, request, n, o, item) ==> item in s.unsupported
  }

  lemma HandledIsExpanded(
    cfg: Settings, venue: Venue, request: Request, states: seq<PoolState>, s: Search, depth: nat, n: Node)
    requires forall e :: e in Children(cfg, venue, request, n) ==> Handled(cfg, venue, request, states, s, depth, e)
    ensures Expanded(cfg, venue, request, states, s, depth, n)
  {
    hide Takes, Refuses, Children, Judged, HasLike;
    forall o, m | Takes(cfg, venue, request, n, o, m)
      ensures Judged(cfg, venue, request, states, s, depth + 1, m) && HasLike(cfg, s.next, m)
    {
      ChildrenAreAll(cfg, venue, request, n, m);
      assert Handled(cfg, venue, request, states, s, depth, Child(m));
    }
    forall o, item | Refuses(cfg, venue, request, n, o, item)
      ensures item in s.unsupported
    {
      RefusalsAreAll(cfg, venue, request, n, item);
      assert Handled(cfg, venue, request, states, s, depth, Refused(item));
    }
  }

  lemma ExpandedStays(
    cfg: Settings, venue: Venue, request: Request, states: seq<PoolState>, s: Search, t: Search, depth: nat, n: Node)
    requires Grew(s, t) && Expanded(cfg, venue, request, states, s, depth, n)
    ensures Expanded(cfg, venue, request, states, t, depth, n)
  {
    hide Takes, Refuses, Judged, Alike;
    forall o, m | Takes(cfg, venue, request, n, o, m)
      ensures Judged(cfg, venue, request, states, t, depth + 1, m) && HasLike(cfg, t.next, m)
    {
      JudgedStays(cfg, venue, request, states, s, t, depth + 1, m);
    }
  }

  lemma {:induction false} LevelExpands(
    cfg: Settings, venue: Venue, request: Request, states: seq<PoolState>, depth: nat, s: Search, frontier: seq<Node>)
    requires KeysTell(cfg) && SeenKept(cfg, s, depth) && forall n :: n in frontier ==> |n.steps| == depth
    ensures var t := Level(cfg, venue, request, states, depth, false, s, frontier);
      && Grew(s, t) && SeenKept(cfg, t, depth)
      && (!t.truncated ==> forall n :: n in frontier ==> Expanded(cfg, venue, request, states, t, depth, n))
    decreases |frontier|
  {
    hide VisitAll, Expanded, Children, Handled, KeysTell, SeenKept;
    if frontier != [] {
      var front, n := frontier[..|frontier| - 1], frontier[|frontier| - 1];
      assert frontier == front + [n];
      LevelExpands(cfg, venue, request, states, depth, s, front);
      var mid := Level(cfg, venue, request, states, depth, false, s, front);
      ChildrenAreOneLonger(cfg, venue, request, n);
      VisitAllHandles(cfg, venue, request, states, depth, mid, Children(cfg, venue, request, n));
      var t := Level(cfg, venue, request, states, depth, false, s, frontier);
      if !t.truncated {
        HandledIsExpanded(cfg, venue, request, states, t, depth, n);
        forall k | k in front
          ensures Expanded(cfg, venue, request, states, t, depth, k)
        {
          ExpandedStays(cfg, venue, request, states, mid, t, depth, k);
        }
      }
    }
  }

  lemma ChildrenAreOneLonger(cfg: Settings, venue: Venue, request: Request, n: Node)
    ensures forall e :: e in Children(cfg, venue, request, n) && e.Child? ==> |e.node.steps| == |n.steps| + 1
  {
    hide Children;
    forall e | e in Children(cfg, venue, request, n) && e.Child?
      ensures |e.node.steps| == |n.steps| + 1
    {
      ChildrenAreAll(cfg, venue, request, n, e.node);
    }
  }

  // ---------------------------------------------------------------- the whole search

  /** The beam keeps all nodes when there are not too many. */
  ghost predicate TrimsOnlyBeyond(cfg: Settings) {
    forall nodes, n :: |nodes| <= cfg.beamWidth && n in nodes ==> n in cfg.trim(nodes)
  }

  /** The frontier holds, for each node that a chain of this length reaches, that node or one like it. */
  ghost predicate Spans(
    cfg: Settings, venue: Venue, request: Request, states: seq<PoolState>, frontier: seq<Node>, depth: nat)
  {
    && AllReached(cfg, venue, request, states, frontier, depth)
    && forall n :: Reachable(cfg, venue, request, states, n, depth) ==>
      HasLike(cfg, frontier, n)
  }

  ghost predicate JudgedLike(
    cfg: Settings, venue: Venue, request: Request, states: seq<PoolState>, s: Search, depth: nat, m: Node)
  {
    exists t :: Reachable(cfg, venue, request, states, t, depth) && Alike(cfg, m, t)
      && Judged(cfg, venue, request, states, s, depth, t)
  }

  /** The nodes that are reached by chains of this length have been judged, themselves or one like each. */
  ghost predicate JudgedAt(
    cfg: Settings, venue: Venue, request: Request, states: seq<PoolState>, s: Search, depth: nat)
  {
    forall m :: Reachable(cfg, venue, request, states, m, depth) ==>
      JudgedLike(cfg, venue, request, states, s, depth, m)
  }

  /** The refusals of the nodes that chains of this length reach have been recorded. */
  ghost predicate RefusedAt(
    cfg: Settings, venue: Venue, request: Request, states: seq<PoolState>, s: Search, depth: nat)
  {
    forall n, o, item ::
      Reachable(cfg, venue, request, states, n, depth) && Refuses(cfg, venue, request, n, o, item) ==>
        item in s.unsupported
  }

  lemma {:induction false} ReachableIsThatLong(
    cfg: Settings, venue: Venue, request: Request, states: seq<PoolState>, n: Node, depth: nat)
    requires Reachable(cfg, venue, request, states, n, depth)
    ensures |n.steps| == depth
    decreases depth
  {
    hide Takes;
    if depth > 0 {
      var prev, o :|
        Reachable(cfg, venue, request, states, prev, depth - 1) && Takes(cfg, venue, request, prev, o, n);
      ReachableIsThatLong(cfg, venue, request, states, prev, depth - 1);
      StepIsWrittenDown(cfg, venue, request, prev, o, n);
    }
  }

  lemma StepIsWrittenDown(cfg: Settings, venue: Venue, request: Request, n: Node, o: Offer, m: Node)
    requires Takes(cfg, venue, request, n, o, m)
    ensures |m.steps| == |n.steps| + 1
  {
  }

  // ---------------------------------------------------------------- nothing is made up

  /** A completion is an incumbent, or the plan of a chain that the evaluator accepts, with its length written down. */
  ghost predicate Earned(cfg: Settings, venue: Venue, request: Request, states: seq<PoolState>, p: Plan) {
    && p.request == request
    && (p in cfg.incumbents || exists n :: PlanFits(cfg, venue, request, states, p, n))
  }

  ghost predicate PlanFits(
    cfg: Settings, venue: Venue, request: Request, states: seq<PoolState>, p: Plan, n: Node)
  {
    && 0 < |n.steps| <= cfg.maxSteps && Reachable(cfg, venue, request, states, n, |n.steps|)
    && p.steps == n.steps && Evaluate(venue, p, states).feasible
    && p.solver == "stateful-search" && p.info.BeamInfo? && p.info.depth == |n.steps|
  }

  /** An unsupported swap is one that a chain with room for a step meets. */
  ghost predicate Met(cfg: Settings, venue: Venue, request: Request, states: seq<PoolState>, item: Refusal) {
    exists n: Node, o :: |n.steps| < cfg.maxSteps && Reachable(cfg, venue, request, states, n, |n.steps|)
      && Refuses(cfg, venue, request, n, o, item)
  }

  /** A terminal refusal is a reason against the plan of a longest chain. */
  ghost predicate Terminal(cfg: Settings, venue: Venue, request: Request, states: seq<PoolState>, r: Reason) {
    exists n, p: Plan :: Reachable(cfg, venue, request, states, n, cfg.maxSteps) && p.request == request
      && p.steps == n.steps && !Evaluate(venue, p, states).feasible && r in Evaluate(venue, p, states).reasons
  }

  ghost predicate AllEarned(
    cfg: Settings, venue: Venue, request: Request, states: seq<PoolState>, plans: seq<Plan>)
  {
    forall p :: p in plans ==> Earned(cfg, venue, request, states, p)
  }

  ghost predicate AllMet(cfg: Settings, venue: Venue, request: Request, states: seq<PoolState>, items: seq<Refusal>) {
    Distinct(items) && forall item :: item in items ==> Met(cfg, venue, request, states, item)
  }

  ghost predicate AllTerminal(
    cfg: Settings, venue: Venue, request: Request, states: seq<PoolState>, reasons: seq<Reason>)
  {
    Distinct(reasons) && forall r :: r in reasons ==> Terminal(cfg, venue, request, states, r)
  }

  ghost predicate AllReached(
    cfg: Settings, venue: Venue, request: Request, states: seq<PoolState>, nodes: seq<Node>, depth: nat)
  {
    forall n :: n in nodes ==> Reachable(cfg, venue, request, states, n, depth)
  }

  ghost predicate Honest(
    cfg: Settings, venue: Venue, request: Request, states: seq<PoolState>, s: Search, depth: nat)
  {
    && AllEarned(cfg, venue, request, states, s.completions) && AllMet(cfg, venue, request, states, s.unsupported)
    && AllTerminal(cfg, venue, request, states, s.refusals)
    && AllReached(cfg, venue, request, states, s.next, depth)
  }

  /** An event of a node that a chain of this length reaches. */
  ghost predicate Genuine(
    cfg: Settings, venue: Venue, request: Request, states: seq<PoolState>, depth: nat, e: Event)
  {
    match e
    case Child(m) => Reachable(cfg, venue, request, states, m, depth + 1) && |m.steps| == depth + 1
    case Refused(item) => Met(cfg, venue, request, states, item)
  }

  lemma EventsAreGenuine(
    cfg: Settings, venue: Venue, request: Request, states: seq<PoolState>, depth: nat, n: Node)
    requires Reachable(cfg, venue, request, states, n, depth) && depth < cfg.maxSteps
    ensures forall e :: e in Children(cfg, venue, request, n) ==> Genuine(cfg, venue, request, states, depth, e)
  {
    ReachableIsThatLong(cfg, venue, request, states, n, depth);
    hide Children, Takes, Refuses, Genuine;
    forall e | e in Children(cfg, venue, request, n)
      ensures Genuine(cfg, venue, request, states, depth, e)
    {
      match e {
        case Child(m) =>
          ChildrenAreAll(cfg, venue, request, n, m);
          var o :| Takes(cfg, venue, request, n, o, m);
          ChildIsGenuine(cfg, venue, request, states, depth, n, o, m);
        case Refused(item) =>
          RefusalsAreAll(cfg, venue, request, n, item);
          var o :| Refuses(cfg, venue, request, n, o, item);
          RefusalIsGenuine(cfg, venue, request, states, depth, n, o, item);
      }
    }
  }

  lemma ChildIsGenuine(
    cfg: Settings, venue: Venue, request: Request, states: seq<PoolState>, depth: nat, n: Node, o: Offer, m: Node)
    requires Reachable(cfg, venue, request, states, n, depth) && |n.steps| == depth
    requires Takes(cfg, venue, request, n, o, m)
    ensures Genuine(cfg, venue, request, states, depth, Child(m))
  {
    StepIsWrittenDown(cfg, venue, request, n, o, m);
    hide Takes;
  }

  lemma RefusalIsGenuine(
    cfg: Settings, venue: Venue, request: Request, states: seq<PoolState>, depth: nat, n: Node, o: Offer, item: Refusal)
    requires Reachable(cfg, venue, request, states, n, depth) && |n.steps| == depth < cfg.maxSteps
    requires Refuses(cfg, venue, request, n, o, item)
    ensures Genuine(cfg, venue, request, states, depth, Refused(item))
  {
    hide Refuses, Reachable;
  }

  lemma VisitIsHonest(
    cfg: Settings, venue: Venue, request: Request, states: seq<PoolState>, depth: nat, skip: bool, s: Search, e: Event)
    requires depth < cfg.maxSteps && Honest(cfg, venue, request, states, s, depth + 1)
    requires Genuine(cfg, venue, request, states, depth, e)
    ensures Honest(cfg, venue, request, states, Visit(cfg, venue, request, states, depth, skip, s, e), depth + 1)
  {
    hide Visit, Honest, Reachable;
    match e {
      case Refused(item) =>
        RefusedIsHonest(cfg, venue, request, states, depth, skip, s, item);
      case Child(m) =>
        ChildIsHonest(cfg, venue, request, states, depth, skip, s, m);
    }
  }

  lemma RefusedIsHonest(
    cfg: Settings, venue: Venue, request: Request, states: seq<PoolState>, depth: nat, skip: bool, s: Search,
    item: Refusal)
    requires Honest(cfg, venue, request, states, s, depth + 1) && Met(cfg, venue, request, states, item)
    ensures Honest(
      cfg, venue, request, states, Visit(cfg, venue, request, states, depth, skip, s, Refused(item)), depth + 1)
  {
    hide AllEarned, AllTerminal, AllMet, AllReached, Met;
    OneMoreMet(cfg, venue, request, states, s.unsupported, item);
  }

  lemma ChildIsHonest(
    cfg: Settings, venue: Venue, request: Request, states: seq<PoolState>, depth: nat, skip: bool, s: Search, m: Node)
    requires depth < cfg.maxSteps && Honest(cfg, venue, request, states, s, depth + 1)
    requires Reachable(cfg, venue, request, states, m, depth + 1) && |m.steps| == depth + 1
    ensures Honest(cfg, venue, request, states, Visit(cfg, venue, request, states, depth, skip, s, Child(m)), depth + 1)
  {
    var s1 := s.(expansions := s.expansions + 1);
    var judged := Judge(cfg, venue, request, states, depth, s1, m);
    CountedIsHonest(cfg, venue, request, states, s, depth + 1);
    hide Honest, Reachable;
    JudgeIsHonest(cfg, venue, request, states, depth, s1, m);
    EnqueueIsHonest(cfg, venue, request, states, depth, s1, m);
    EnqueueIsHonest(cfg, venue, request, states, depth, judged, m);
    hide Judge, Enqueue;
    VisitChildIs(cfg, venue, request, states, depth, skip, s, m);
    hide Visit;
  }

  /** A child is left out, or put in the frontier, judged or not. */
  lemma VisitChildIs(
    cfg: Settings, venue: Venue, request: Request, states: seq<PoolState>, depth: nat, skip: bool, s: Search, m: Node)
    ensures var t := Visit(cfg, venue, request, states, depth, skip, s, Child(m));
      var s1 := s.(expansions := s.expansions + 1);
      || t == s || t == s.(truncated := true) || t == Enqueue(cfg, s1, m)
      || t == Enqueue(cfg, Judge(cfg, venue, request, states, depth, s1, m), m)
  {
    hide Judge, Enqueue;
  }

  lemma CountedIsHonest(cfg: Settings, venue: Venue, request: Request, states: seq<PoolState>, s: Search, depth: nat)
    requires Honest(cfg, venue, request, states, s, depth)
    ensures Honest(cfg, venue, request, states, s.(expansions := s.expansions + 1), depth)
    ensures Honest(cfg, venue, request, states, s.(truncated := true), depth)
  {
    hide AllEarned, AllTerminal, AllMet, AllReached;
  }

  lemma EnqueueIsHonest(
    cfg: Settings, venue: Venue, request: Request, states: seq<PoolState>, depth: nat, s: Search, m: Node)
    requires Honest(cfg, venue, request, states, s, depth + 1) && Reachable(cfg, venue, request, states, m, depth + 1)
    ensures Honest(cfg, venue, request, states, Enqueue(cfg, s, m), depth + 1)
  {
    hide AllEarned, AllTerminal, AllMet, AllReached, Reachable;
    OneMoreReached(cfg, venue, request, states, s.next, m, depth + 1);
  }

  lemma OneMoreMet(
    cfg: Settings, venue: Venue, request: Request, states: seq<PoolState>, items: seq<Refusal>, item: Refusal)
    requires AllMet(cfg, venue, request, states, items) && Met(cfg, venue, request, states, item)
    ensures AllMet(cfg, venue, request, states, AddNew(items, item))
  {
    hide Met;
    AddNewAdds(items, item);
  }

  lemma OneMoreReached(
    cfg: Settings, venue: Venue, request: Request, states: seq<PoolState>, nodes: seq<Node>, m: Node, depth: nat)
    requires AllReached(cfg, venue, request, states, nodes, depth) && Reachable(cfg, venue, request, states, m, depth)
    ensures AllReached(cfg, venue, request, states, nodes + [m], depth)
  {
    hide Reachable;
  }

  lemma JudgeIsHonest(
    cfg: Settings, venue: Venue, request: Request, states: seq<PoolState>, depth: nat, s: Search, m: Node)
    requires depth < cfg.maxSteps && Honest(cfg, venue, request, states, s, depth + 1)
    requires Reachable(cfg, venue, request, states, m, depth + 1) && |m.steps| == depth + 1
    ensures var t := Judge(cfg, venue, request, states, depth, s, m);
      Honest(cfg, venue, request, states, t, depth + 1) && t == s.(completions := t.completions, refusals := t.refusals)
  {
    var plan := PlanFor(request, m, depth + 1, s);
    var reasons := Evaluate(venue, plan, states).reasons;
    PlanIsEarned(cfg, venue, request, states, depth, plan, m);
    hide Evaluate, Earned, Terminal, Reachable;
    OneMoreEarned(cfg, venue, request, states, s.completions, plan);
    MoreTerminal(cfg, venue, request, states, s.refusals, reasons);
    hide AllEarned, AllTerminal, AllMet, AllReached, AddAllNew;
  }

  lemma OneMoreEarned(
    cfg: Settings, venue: Venue, request: Request, states: seq<PoolState>, plans: seq<Plan>, plan: Plan)
    requires AllEarned(cfg, venue, request, states, plans)
    ensures Earned(cfg, venue, request, states, plan) ==> AllEarned(cfg, venue, request, states, plans + [plan])
  {
    hide Earned;
  }

  lemma MoreTerminal(
    cfg: Settings, venue: Venue, request: Request, states: seq<PoolState>, items: seq<Reason>, more: seq<Reason>)
    requires AllTerminal(cfg, venue, request, states, items)
    ensures (forall r :: r in more ==> Terminal(cfg, venue, request, states, r)) ==>
      AllTerminal(cfg, venue, request, states, AddAllNew(items, more))
  {
    hide Terminal, AddAllNew, Distinct;
    AddAllNewAdds(items, more);
  }

  lemma PlanIsEarned(
    cfg: Settings, venue: Venue, request: Request, states: seq<PoolState>, depth: nat, p: Plan, m: Node)
    requires depth < cfg.maxSteps && Reachable(cfg, venue, request, states, m, depth + 1) && |m.steps| == depth + 1
    requires p.request == request && p.steps == m.steps && p.solver == "stateful-search"
    requires p.info.BeamInfo? && p.info.depth == depth + 1
    ensures Evaluate(venue, p, states).feasible ==> Earned(cfg, venue, request, states, p)
    ensures !Evaluate(venue, p, states).feasible && depth + 1 == cfg.maxSteps ==>
      forall r :: r in Evaluate(venue, p, states).reasons ==> Terminal(cfg, venue, request, states, r)
  {
    hide Evaluate, Reachable;
    if Evaluate(venue, p, states).feasible {
      assert PlanFits(cfg, venue, request, states, p, m);
    }
  }

  lemma {:induction false} VisitAllIsHonest(
    cfg: Settings, venue: Venue, request: Request, states: seq<PoolState>, depth: nat, skip: bool, s: Search,
    events: seq<Event>)
    requires depth < cfg.maxSteps && Honest(cfg, venue, request, states, s, depth + 1)
    requires forall e :: e in events ==> Genuine(cfg, venue, request, states, depth, e)
    ensures Honest(cfg, venue, request, states, VisitAll(cfg, venue, request, states, depth, skip, s, events),
      depth + 1)
    decreases |events|
  {
    hide Visit, Honest, Genuine;
    if events != [] {
      var front := events[..|events| - 1];
      VisitAllIsHonest(cfg, venue, request, states, depth, skip, s, front);
      VisitIsHonest(cfg, venue, request, states, depth, skip,
        VisitAll(cfg, venue, request, states, depth, skip, s, front), events[|events| - 1]);
    }
  }

  lemma {:induction false} LevelIsHonest(
    cfg: Settings, venue: Venue, request: Request, states: seq<PoolState>, depth: nat, skip: bool, s: Search,
    frontier: seq<Node>)
    requires depth < cfg.maxSteps && Honest(cfg, venue, request, states, s, depth + 1)
    requires AllReached(cfg, venue, request, states, frontier, depth)
    ensures Honest(cfg, venue, request, states, Level(cfg, venue, request, states, depth, skip, s, frontier), depth + 1)
    decreases |frontier|
  {
    hide VisitAll, Honest, Genuine, Children, Reachable;
    if frontier != [] {
      var front, n := frontier[..|frontier| - 1], frontier[|frontier| - 1];
      assert n in frontier && forall k :: k in front ==> k in frontier;
      LevelIsHonest(cfg, venue, request, states, depth, skip, s, front);
      EventsAreGenuine(cfg, venue, request, states, depth, n);
      VisitAllIsHonest(cfg, venue, request, states, depth, skip,
        Level(cfg, venue, request, states, depth, skip, s, front), Children(cfg, venue, request, n));
    }
  }

  lemma {:induction false} DeepenIsHonest(
    cfg: Settings, venue: Venue, request: Request, states: seq<PoolState>, depth: nat, skip: bool, o: Outcome)
    requires depth <= cfg.maxSteps && TrimsOnly(cfg)
    requires Honest(cfg, venue, request, states, o.search.(next := []), depth)
    requires AllReached(cfg, venue, request, states, o.frontier, depth)
    ensures var end := Deepen(cfg, venue, request, states, depth, skip, o);
      Honest(cfg, venue, request, states, end.search.(next := []), depth)
    decreases cfg.maxSteps - depth
  {
    hide Level, Reachable, AllEarned, AllMet, AllTerminal;
    if depth < cfg.maxSteps {
      var start := o.search.(next := []);
      LevelIsHonest(cfg, venue, request, states, depth, skip, start, o.frontier);
      var s := Level(cfg, venue, request, states, depth, skip, start, o.frontier);
      if !s.truncated && s.next != [] {
        DeepenIsHonest(cfg, venue, request, states, depth + 1, skip, Advance(cfg, s));
      }
    }
  }

  /** Either search, under any limits: what it completes, reports as unsupported and notes as a terminal refusal is what
      some chain leads to, and nothing is reported or noted twice. */
  lemma SearchIsHonest(cfg: Settings, venue: Venue, request: Request, states: seq<PoolState>, skip: bool)
    requires TrimsOnly(cfg)
    ensures var s := Explore(cfg, venue, request, states, skip).search;
      && (forall p :: p in s.completions ==> Earned(cfg, venue, request, states, p))
      && (forall item :: item in s.unsupported ==> Met(cfg, venue, request, states, item))
      && (forall r :: r in s.refusals ==> Terminal(cfg, venue, request, states, r))
      && Distinct(s.unsupported) && Distinct(s.refusals)
  {
    hide Deepen, Met, Terminal, Evaluate;
    DeepenIsHonest(cfg, venue, request, states, 0, skip, Opening(cfg, request, states));
  }

  // ---------------------------------------------------------------- completeness

  /** A node that a chain one longer reaches has been judged, or one like it has, and the next frontier has one like
      it. */
  lemma ReachedIsJudged(
    cfg: Settings, venue: Venue, request: Request, states: seq<PoolState>, depth: nat, s: Search, frontier: seq<Node>,
    m: Node) returns (u: Node)
    requires Spans(cfg, venue, request, states, frontier, depth) && Reachable(cfg, venue, request, states, m, depth + 1)
    requires Keyless(cfg) || KeepsPsm(venue)
    requires forall n :: n in frontier ==> Expanded(cfg, venue, request, states, s, depth, n)
    ensures Reachable(cfg, venue, request, states, u, depth + 1) && Alike(cfg, m, u)
    ensures Judged(cfg, venue, request, states, s, depth + 1, u) && HasLike(cfg, s.next, m)
  {
    hide Takes, Refuses, Judged, Alike, Keyless, KeepsPsm;
    var prev, o := LastStep(cfg, venue, request, states, m, depth);
    var t :| t in frontier && Alike(cfg, prev, t);
    u := AlikeTakesAlike(cfg, venue, request, prev, t, o, m);
    assert Expanded(cfg, venue, request, states, s, depth, t);
    assert Reachable(cfg, venue, request, states, t, depth);
    OneStepFurther(cfg, venue, request, states, t, o, u, depth);
    var v :| v in s.next && Alike(cfg, u, v);
    AlikeCarries(cfg, m, u, v);
  }

  lemma LastStep(cfg: Settings, venue: Venue, request: Request, states: seq<PoolState>, m: Node, depth: nat)
    returns (prev: Node, o: Offer)
    requires Reachable(cfg, venue, request, states, m, depth + 1)
    ensures Reachable(cfg, venue, request, states, prev, depth) && Takes(cfg, venue, request, prev, o, m)
  {
    hide Takes;
    prev, o :| Reachable(cfg, venue, request, states, prev, depth) && Takes(cfg, venue, request, prev, o, m);
  }

  lemma OneStepFurther(
    cfg: Settings, venue: Venue, request: Request, states: seq<PoolState>, n: Node, o: Offer, m: Node, depth: nat)
    requires Reachable(cfg, venue, request, states, n, depth) && Takes(cfg, venue, request, n, o, m)
    ensures Reachable(cfg, venue, request, states, m, depth + 1)
  {
    hide Takes;
  }

  lemma AlikeCarries(cfg: Settings, n: Node, m: Node, t: Node)
    requires Alike(cfg, n, m) && Alike(cfg, m, t)
    ensures Alike(cfg, n, t)
  {
    hide Keyless;
  }

  lemma MetIsRecorded(
    cfg: Settings, venue: Venue, request: Request, states: seq<PoolState>, depth: nat, s: Search, frontier: seq<Node>,
    n: Node, o: Offer, item: Refusal)
    requires Spans(cfg, venue, request, states, frontier, depth)
    requires forall k :: k in frontier ==> Expanded(cfg, venue, request, states, s, depth, k)
    requires Reachable(cfg, venue, request, states, n, depth) && Refuses(cfg, venue, request, n, o, item)
    ensures item in s.unsupported
  {
    hide Reachable, Keyless, Judged;
    var t :| t in frontier && Alike(cfg, n, t);
    assert Refuses(cfg, venue, request, t, o, item);
    hide Refuses;
    assert Expanded(cfg, venue, request, states, s, depth, t);
  }

  lemma LevelSpans(
    cfg: Settings, venue: Venue, request: Request, states: seq<PoolState>, depth: nat, s: Search, frontier: seq<Node>)
    requires depth < cfg.maxSteps && KeysTell(cfg) && SeenKept(cfg, s, depth) && (Keyless(cfg) || KeepsPsm(venue))
    requires Spans(cfg, venue, request, states, frontier, depth) && Honest(cfg, venue, request, states, s, depth + 1)
    ensures var t := Level(cfg, venue, request, states, depth, false, s, frontier);
      && Grew(s, t) && SeenKept(cfg, t, depth) && Honest(cfg, venue, request, states, t, depth + 1)
      && (!t.truncated ==>
            && Spans(cfg, venue, request, states, t.next, depth + 1)
            && JudgedAt(cfg, venue, request, states, t, depth + 1) && RefusedAt(cfg, venue, request, states, t, depth))
  {
    LevelIsHonest(cfg, venue, request, states, depth, false, s, frontier);
    hide Level, Reachable, Expanded, Keyless, KeepsPsm, KeysTell, SeenKept, AllEarned, AllMet, AllTerminal, HasLike,
      JudgedAt, RefusedAt;
    forall n | n in frontier
      ensures |n.steps| == depth
    {
      ReachableIsThatLong(cfg, venue, request, states, n, depth);
    }
    LevelExpands(cfg, venue, request, states, depth, s, frontier);
    var t := Level(cfg, venue, request, states, depth, false, s, frontier);
    if !t.truncated {
      ExpandedSpans(cfg, venue, request, states, depth, t, frontier);
    }
  }

  lemma ExpandedSpans(
    cfg: Settings, venue: Venue, request: Request, states: seq<PoolState>, depth: nat, s: Search, frontier: seq<Node>)
    requires Spans(cfg, venue, request, states, frontier, depth)
    requires AllReached(cfg, venue, request, states, s.next, depth + 1) && (Keyless(cfg) || KeepsPsm(venue))
    requires forall n :: n in frontier ==> Expanded(cfg, venue, request, states, s, depth, n)
    ensures Spans(cfg, venue, request, states, s.next, depth + 1)
    ensures JudgedAt(cfg, venue, request, states, s, depth + 1) && RefusedAt(cfg, venue, request, states, s, depth)
  {
    hide Reachable, Expanded, Alike, Refuses, Judged, Keyless, KeepsPsm;
    forall m | Reachable(cfg, venue, request, states, m, depth + 1)
      ensures HasLike(cfg, s.next, m) && JudgedLike(cfg, venue, request, states, s, depth + 1, m)
    {
      var u := ReachedIsJudged(cfg, venue, request, states, depth, s, frontier, m);
    }
    forall n, o, item |
      Reachable(cfg, venue, request, states, n, depth) && Refuses(cfg, venue, request, n, o, item)
      ensures item in s.unsupported
    {
      MetIsRecorded(cfg, venue, request, states, depth, s, frontier, n, o, item);
    }
  }

  /** What holds of the end of the search for every depth from this one on. */
  ghost predicate Complete(
    cfg: Settings, venue: Venue, request: Request, states: seq<PoolState>, s: Search, from: nat)
  {
    && (forall d :: from < d <= cfg.maxSteps ==> JudgedAt(cfg, venue, request, states, s, d))
    && forall d :: from <= d < cfg.maxSteps ==> RefusedAt(cfg, venue, request, states, s, d)
  }

  // ---------------------------------------------------------------- from depth to depth

  /** What has been found stays found. */
  ghost predicate Later(s: Search, t: Search) {
    && (forall p :: p in s.completions ==> p in t.completions)
    && (forall r :: r in s.refusals ==> r in t.refusals)
    && (forall r :: r in s.unsupported ==> r in t.unsupported)
    && (s.beamPruned ==> t.beamPruned)
  }

  lemma VisitLater(
    cfg: Settings, venue: Venue, request: Request, states: seq<PoolState>, depth: nat, skip: bool, s: Search, e: Event)
    ensures var t := Visit(cfg, venue, request, states, depth, skip, s, e);
      Later(s, t) && t.beamPruned == s.beamPruned
  {
    hide Evaluate, AddAllNew;
    match e {
      case Refused(item) =>
        AddNewAdds(s.unsupported, item);
      case Child(m) =>
        JudgeJudges(cfg, venue, request, states, depth, s.(expansions := s.expansions + 1), m);
    }
  }

  lemma {:induction false} VisitAllLater(
    cfg: Settings, venue: Venue, request: Request, states: seq<PoolState>, depth: nat, skip: bool, s: Search,
    events: seq<Event>)
    ensures var t := VisitAll(cfg, venue, request, states, depth, skip, s, events);
      Later(s, t) && t.beamPruned == s.beamPruned
    decreases |events|
  {
    hide Visit;
    if events != [] {
      var front := events[..|events| - 1];
      VisitAllLater(cfg, venue, request, states, depth, skip, s, front);
      VisitLater(cfg, venue, request, states, depth, skip,
        VisitAll(cfg, venue, request, states, depth, skip, s, front), events[|events| - 1]);
    }
  }

  lemma {:induction false} LevelLater(
    cfg: Settings, venue: Venue, request: Request, states: seq<PoolState>, depth: nat, skip: bool, s: Search,
    frontier: seq<Node>)
    ensures var t := Level(cfg, venue, request, states, depth, skip, s, frontier);
      Later(s, t) && t.beamPruned == s.beamPruned
    decreases |frontier|
  {
    hide VisitAll, Children;
    if frontier != [] {
      var front := frontier[..|frontier| - 1];
      LevelLater(cfg, venue, request, states, depth, skip, s, front);
      VisitAllLater(cfg, venue, request, states, depth, skip,
        Level(cfg, venue, request, states, depth, skip, s, front),
        Children(cfg, venue, request, frontier[|frontier| - 1]));
    }
  }

  lemma {:induction false} DeepenLater(
    cfg: Settings, venue: Venue, request: Request, states: seq<PoolState>, depth: nat, skip: bool, o: Outcome)
    requires depth <= cfg.maxSteps
    ensures Later(o.search, Deepen(cfg, venue, request, states, depth, skip, o).search)
    decreases cfg.maxSteps - depth
  {
    hide Level;
    if depth < cfg.maxSteps {
      var start := o.search.(next := []);
      LevelLater(cfg, venue, request, states, depth, skip, start, o.frontier);
      var s := Level(cfg, venue, request, states, depth, skip, start, o.frontier);
      if !s.truncated && s.next != [] {
        DeepenLater(cfg, venue, request, states, depth + 1, skip, Advance(cfg, s));
      }
    }
  }

  lemma JudgedLater(
    cfg: Settings, venue: Venue, request: Request, states: seq<PoolState>, s: Search, t: Search, depth: nat)
    requires Later(s, t)
    ensures JudgedAt(cfg, venue, request, states, s, depth) ==> JudgedAt(cfg, venue, request, states, t, depth)
  {
    hide Reachable, JudgedLike, Later;
    forall m | JudgedLike(cfg, venue, request, states, s, depth, m)
      ensures JudgedLike(cfg, venue, request, states, t, depth, m)
    {
      JudgedLikeLater(cfg, venue, request, states, s, t, depth, m);
    }
  }

  lemma JudgedLikeLater(
    cfg: Settings, venue: Venue, request: Request, states: seq<PoolState>, s: Search, t: Search, depth: nat, m: Node)
    requires Later(s, t) && JudgedLike(cfg, venue, request, states, s, depth, m)
    ensures JudgedLike(cfg, venue, request, states, t, depth, m)
  {
    hide Reachable, Judged, Alike;
    var u :| Reachable(cfg, venue, request, states, u, depth) && Alike(cfg, m, u)
      && Judged(cfg, venue, request, states, s, depth, u);
    JudgedStays(cfg, venue, request, states, s, t, depth, u);
  }

  lemma RefusedLater(
    cfg: Settings, venue: Venue, request: Request, states: seq<PoolState>, s: Search, t: Search, depth: nat)
    requires Later(s, t)
    ensures RefusedAt(cfg, venue, request, states, s, depth) ==> RefusedAt(cfg, venue, request, states, t, depth)
  {
    hide Reachable, Refuses;
  }

  /** Where no chain reaches, no longer chain does. */
  lemma {:induction false} NothingFurther(
    cfg: Settings, venue: Venue, request: Request, states: seq<PoolState>, depth: nat, further: nat)
    requires depth <= further && forall m :: !Reachable(cfg, venue, request, states, m, depth)
    ensures forall n :: !Reachable(cfg, venue, request, states, n, further)
    decreases further
  {
    hide Takes;
    if depth < further {
      NothingFurther(cfg, venue, request, states, depth, further - 1);
    }
  }

  lemma EmptyFrontierIsComplete(
    cfg: Settings, venue: Venue, request: Request, states: seq<PoolState>, s: Search, depth: nat)
    requires Spans(cfg, venue, request, states, [], depth)
    ensures Complete(cfg, venue, request, states, s, depth)
  {
    hide Reachable, Judged, Refuses, Alike;
    forall d: nat, n | depth <= d
      ensures !Reachable(cfg, venue, request, states, n, d)
    {
      assert !HasLike(cfg, [], n);
      NothingFurther(cfg, venue, request, states, depth, d);
    }
  }

  lemma SeenLater(cfg: Settings, venue: Venue, request: Request, states: seq<PoolState>, s: Search, depth: nat)
    requires SeenKept(cfg, s, depth) && AllReached(cfg, venue, request, states, s.next, depth + 1)
    ensures SeenKept(cfg, s.(next := []), depth + 1)
  {
    hide Reachable;
    forall n | n in s.next
      ensures |n.steps| == depth + 1
    {
      ReachableIsThatLong(cfg, venue, request, states, n, depth + 1);
    }
  }

  lemma AdvanceSpans(cfg: Settings, venue: Venue, request: Request, states: seq<PoolState>, s: Search, depth: nat)
    requires TrimsOnly(cfg) && TrimsOnlyBeyond(cfg) && Spans(cfg, venue, request, states, s.next, depth)
    ensures var o := Advance(cfg, s);
      && o.search == s.(beamPruned := o.search.beamPruned) && (s.beamPruned ==> o.search.beamPruned)
      && AllReached(cfg, venue, request, states, o.frontier, depth)
      && (!o.search.beamPruned ==> Spans(cfg, venue, request, states, o.frontier, depth))
  {
    hide Reachable, Alike;
    var o := Advance(cfg, s);
    if !o.search.beamPruned {
      forall n | HasLike(cfg, s.next, n)
        ensures HasLike(cfg, o.frontier, n)
      {
        var t :| t in s.next && Alike(cfg, n, t);
        assert t in o.frontier;
      }
    }
  }

  lemma WiderComplete(
    cfg: Settings, venue: Venue, request: Request, states: seq<PoolState>, s: Search, end: Search, depth: nat)
    requires Later(s, end) && Complete(cfg, venue, request, states, end, depth + 1)
    requires JudgedAt(cfg, venue, request, states, s, depth + 1) && RefusedAt(cfg, venue, request, states, s, depth)
    ensures Complete(cfg, venue, request, states, end, depth)
  {
    hide JudgedAt, RefusedAt, Later;
    JudgedLater(cfg, venue, request, states, s, end, depth + 1);
    RefusedLater(cfg, venue, request, states, s, end, depth);
  }

  lemma {:induction false} DeepenIsComplete(
    cfg: Settings, venue: Venue, request: Request, states: seq<PoolState>, depth: nat, o: Outcome)
    requires depth <= cfg.maxSteps && KeysTell(cfg) && TrimsOnly(cfg) && TrimsOnlyBeyond(cfg)
    requires Keyless(cfg) || KeepsPsm(venue)
    requires SeenKept(cfg, o.search.(next := []), depth) && Spans(cfg, venue, request, states, o.frontier, depth)
    requires Honest(cfg, venue, request, states, o.search.(next := []), depth)
    ensures var end := Deepen(cfg, venue, request, states, depth, false, o).search;
      !end.truncated && !end.beamPruned ==> Complete(cfg, venue, request, states, end, depth)
    decreases cfg.maxSteps - depth
  {
    hide Level, Keyless, KeepsPsm, KeysTell, SeenKept, Reachable, AllEarned, AllMet, AllTerminal, Advance, TrimsOnly,
      TrimsOnlyBeyond, JudgedAt, RefusedAt, HasLike, Later, Complete, Grew;
    if depth == cfg.maxSteps {
      NothingLeftToDo(cfg, venue, request, states, o.search);
      return;
    }
    var start := o.search.(next := []);
    LevelSpans(cfg, venue, request, states, depth, start, o.frontier);
    var s := Level(cfg, venue, request, states, depth, false, start, o.frontier);
    var end := Deepen(cfg, venue, request, states, depth, false, o).search;
    if !s.truncated && s.next == [] {
      EmptyFrontierIsComplete(cfg, venue, request, states, s, depth + 1);
      LaterItself(s);
      WiderComplete(cfg, venue, request, states, s, s, depth);
    } else if !s.truncated {
      AdvanceSpans(cfg, venue, request, states, s, depth + 1);
      SeenLater(cfg, venue, request, states, s, depth);
      var o' := Advance(cfg, s);
      DeepenLater(cfg, venue, request, states, depth + 1, false, o');
      LaterAfterAdvance(s, o'.search, end);
      if !o'.search.beamPruned && !end.truncated && !end.beamPruned {
        DeepenIsComplete(cfg, venue, request, states, depth + 1, o');
        WiderComplete(cfg, venue, request, states, s, end, depth);
      }
    }
  }

  lemma LaterItself(s: Search)
    ensures Later(s, s)
  {
  }

  lemma LaterAfterAdvance(s: Search, t: Search, end: Search)
    requires t == s.(beamPruned := t.beamPruned) && (s.beamPruned ==> t.beamPruned) && Later(t, end)
    ensures Later(s, end) && (t.beamPruned ==> end.beamPruned)
  {
  }

  lemma NothingLeftToDo(cfg: Settings, venue: Venue, request: Request, states: seq<PoolState>, s: Search)
    ensures Complete(cfg, venue, request, states, s, cfg.maxSteps)
  {
  }

  // ---------------------------------------------------------------- the results

  /** A search that says neither that it was truncated nor that its beam was pruned has judged every node that a
      chain of payable steps reaches, or one like it, and recorded every refusal on the way. */
  lemma SearchIsComplete(cfg: Settings, venue: Venue, request: Request, states: seq<PoolState>, skip: bool)
    requires KeysTell(cfg) && TrimsOnly(cfg) && TrimsOnlyBeyond(cfg) && (Keyless(cfg) || KeepsPsm(venue))
    requires skip ==> DistinctIds(states) && KeepsIds(venue)
    ensures var s := Explore(cfg, venue, request, states, skip).search;
      !s.truncated && !s.beamPruned ==> Complete(cfg, venue, request, states, s, 0)
  {
    if skip {
      SkipIsInvisible(cfg, venue, request, states);
    }
    OpeningIsReady(cfg, venue, request, states);
    hide Deepen, Opening, Spans, Honest, SeenKept, KeysTell, TrimsOnly, TrimsOnlyBeyond, Complete, Keyless, KeepsPsm;
    DeepenIsComplete(cfg, venue, request, states, 0, Opening(cfg, request, states));
  }

  lemma OpeningIsReady(cfg: Settings, venue: Venue, request: Request, states: seq<PoolState>)
    ensures var o := Opening(cfg, request, states);
      && SeenKept(cfg, o.search.(next := []), 0) && Spans(cfg, venue, request, states, o.frontier, 0)
      && Honest(cfg, venue, request, states, o.search.(next := []), 0)
  {
    hide Evaluate, Terminal, Met;
    var o := Opening(cfg, request, states);
    forall n | Reachable(cfg, venue, request, states, n, 0)
      ensures HasLike(cfg, o.frontier, n)
    {
      assert n in o.frontier && Alike(cfg, n, n);
    }
  }

  /** Every accepted plan of a chain of at most `maxSteps` steps is completed. */
  ghost predicate CompletesAll(cfg: Settings, venue: Venue, request: Request, states: seq<PoolState>, s: Search) {
    forall n, p :: Acceptable(cfg, venue, request, states, n, p) ==> Completed(s, request, p.steps)
  }

  ghost predicate Acceptable(
    cfg: Settings, venue: Venue, request: Request, states: seq<PoolState>, n: Node, p: Plan)
  {
    && 0 < |n.steps| <= cfg.maxSteps && Reachable(cfg, venue, request, states, n, |n.steps|)
    && p.request == request && p.steps == n.steps && Evaluate(venue, p, states).feasible
  }

  /** Without keys such a search completes exactly the accepted plans of chains of at most `maxSteps` steps, besides the
      incumbents; it reports exactly the unsupported swaps that such chains meet, and as terminal refusals exactly the
      reasons against the plans of its longest chains. */
  lemma SearchIsExact(cfg: Settings, venue: Venue, request: Request, states: seq<PoolState>, skip: bool)
    requires Keyless(cfg) && TrimsOnly(cfg) && TrimsOnlyBeyond(cfg) && cfg.maxSteps > 0
    requires skip ==> DistinctIds(states) && KeepsIds(venue)
    ensures var s := Explore(cfg, venue, request, states, skip).search;
      !s.truncated && !s.beamPruned ==>
        && CompletesAll(cfg, venue, request, states, s)
        && (forall p :: p in s.completions ==> Earned(cfg, venue, request, states, p))
        && (forall item :: item in s.unsupported <==> Met(cfg, venue, request, states, item))
        && (forall r :: r in s.refusals <==> Terminal(cfg, venue, request, states, r))
  {
    KeylessTells(cfg);
    SearchIsComplete(cfg, venue, request, states, skip);
    SearchIsHonest(cfg, venue, request, states, skip);
    hide Explore, Earned, Met, Terminal, TrimsOnly, TrimsOnlyBeyond, Keyless, KeysTell, CompletesAll, Complete;
    var s := Explore(cfg, venue, request, states, skip).search;
    if !s.truncated && !s.beamPruned {
      KeylessCompletesAll(cfg, venue, request, states, s);
      forall item | Met(cfg, venue, request, states, item)
        ensures item in s.unsupported
      {
        MetIsReported(cfg, venue, request, states, s, item);
      }
      forall r | Terminal(cfg, venue, request, states, r)
        ensures r in s.refusals
      {
        TerminalIsNoted(cfg, venue, request, states, s, r);
      }
    }
  }

  lemma KeylessCompletesAll(cfg: Settings, venue: Venue, request: Request, states: seq<PoolState>, s: Search)
    requires Keyless(cfg) && Complete(cfg, venue, request, states, s, 0)
    ensures CompletesAll(cfg, venue, request, states, s)
  {
    hide Reachable, Evaluate, Keyless, Complete, Completed;
    forall n, p | Acceptable(cfg, venue, request, states, n, p)
      ensures Completed(s, request, p.steps)
    {
      KeylessIsJudged(cfg, venue, request, states, s, n);
    }
  }

  lemma MetIsReported(
    cfg: Settings, venue: Venue, request: Request, states: seq<PoolState>, s: Search, item: Refusal)
    requires Complete(cfg, venue, request, states, s, 0) && Met(cfg, venue, request, states, item)
    ensures item in s.unsupported
  {
    hide Reachable, Refuses, JudgedAt;
    var n: Node, o :| |n.steps| < cfg.maxSteps && Reachable(cfg, venue, request, states, n, |n.steps|)
      && Refuses(cfg, venue, request, n, o, item);
    assert RefusedAt(cfg, venue, request, states, s, |n.steps|);
  }

  lemma KeylessTells(cfg: Settings)
    requires Keyless(cfg)
    ensures KeysTell(cfg)
  {
  }

  lemma KeylessIsJudged(
    cfg: Settings, venue: Venue, request: Request, states: seq<PoolState>, s: Search, n: Node)
    requires Keyless(cfg) && Complete(cfg, venue, request, states, s, 0)
    requires 0 < |n.steps| <= cfg.maxSteps && Reachable(cfg, venue, request, states, n, |n.steps|)
    ensures Judged(cfg, venue, request, states, s, |n.steps|, n)
  {
    hide Reachable, Judged, Keyless;
    assert JudgedAt(cfg, venue, request, states, s, |n.steps|);
    assert JudgedLike(cfg, venue, request, states, s, |n.steps|, n);
  }

  lemma TerminalIsNoted(
    cfg: Settings, venue: Venue, request: Request, states: seq<PoolState>, s: Search, r: Reason)
    requires Keyless(cfg) && Complete(cfg, venue, request, states, s, 0) && cfg.maxSteps > 0
    requires Terminal(cfg, venue, request, states, r)
    ensures r in s.refusals
  {
    hide Reachable, Keyless, Evaluate;
    var n, p: Plan :| Reachable(cfg, venue, request, states, n, cfg.maxSteps) && p.request == request
      && p.steps == n.steps && !Evaluate(venue, p, states).feasible && r in Evaluate(venue, p, states).reasons;
    ReachableIsThatLong(cfg, venue, request, states, n, cfg.maxSteps);
    KeylessIsJudged(cfg, venue, request, states, s, n);
  }
}
