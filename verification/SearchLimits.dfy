/** What the bounded search's limits do: the budget, the beam, and the order in which completions are found. */
module SearchLimits {
  import opened Market
  import opened Evaluator
  import opened Lists
  import opened BeamSearch

  // ---------------------------------------------------------------- counting

  /** The incumbents of the request come first, in order; then the plans found, each with its own expansion number. */
  ghost predicate InOrderFound(cfg: Settings, request: Request, plans: seq<Plan>, expansions: nat) {
    var k := |Own(cfg.incumbents, request)|;
    && k <= |plans| && plans[..k] == Own(cfg.incumbents, request)
    && (forall i :: k <= i < |plans| ==> plans[i].info.BeamInfo? && 0 < plans[i].info.expansions <= expansions)
    && forall i, j :: k <= i < j < |plans| ==> plans[i].info.expansions < plans[j].info.expansions
  }

  /** The beam is pruned only where it is narrower than what has been expanded, and never in an exhaustive search. */
  ghost predicate Counted(cfg: Settings, request: Request, s: Search) {
    && InOrderFound(cfg, request, s.completions, s.expansions)
    && |s.next| <= s.expansions
    && (s.beamPruned ==> !cfg.exhaustive && s.expansions > cfg.beamWidth)
  }

  lemma VisitCounts(
    cfg: Settings, venue: Venue, request: Request, states: seq<PoolState>, depth: nat, skip: bool, s: Search, e: Event)
    requires Counted(cfg, request, s)
    ensures var t := Visit(cfg, venue, request, states, depth, skip, s, e);
      Counted(cfg, request, t) && s.expansions <= t.expansions
  {
    hide Evaluate, AddAllNew, AddNew, InOrderFound;
    if e.Child? {
      var plan := PlanFor(request, e.node, depth + 1, s.(expansions := s.expansions + 1));
      OneMoreExpansion(cfg, request, s.completions, s.expansions, plan);
    }
  }

  lemma OneMoreExpansion(cfg: Settings, request: Request, plans: seq<Plan>, expansions: nat, plan: Plan)
    requires InOrderFound(cfg, request, plans, expansions)
    requires plan.info.BeamInfo? && plan.info.expansions == expansions + 1
    ensures InOrderFound(cfg, request, plans, expansions + 1)
    ensures InOrderFound(cfg, request, plans + [plan], expansions + 1)
  {
    hide Own;
    var k := |Own(cfg.incumbents, request)|;
    assert (plans + [plan])[..k] == plans[..k];
  }

  lemma {:induction false} VisitAllCounts(
    cfg: Settings, venue: Venue, request: Request, states: seq<PoolState>, depth: nat, skip: bool, s: Search,
    events: seq<Event>)
    requires Counted(cfg, request, s)
    ensures var t := VisitAll(cfg, venue, request, states, depth, skip, s, events);
      Counted(cfg, request, t) && s.expansions <= t.expansions
    decreases |events|
  {
    hide Visit, Counted;
    if events != [] {
      var front := events[..|events| - 1];
      VisitAllCounts(cfg, venue, request, states, depth, skip, s, front);
      VisitCounts(cfg, venue, request, states, depth, skip,
        VisitAll(cfg, venue, request, states, depth, skip, s, front), events[|events| - 1]);
    }
  }

  lemma {:induction false} LevelCounts(
    cfg: Settings, venue: Venue, request: Request, states: seq<PoolState>, depth: nat, skip: bool, s: Search,
    frontier: seq<Node>)
    requires Counted(cfg, request, s)
    ensures var t := Level(cfg, venue, request, states, depth, skip, s, frontier);
      Counted(cfg, request, t) && s.expansions <= t.expansions
    decreases |frontier|
  {
    hide VisitAll, Counted, Children;
    if frontier != [] {
      var front := frontier[..|frontier| - 1];
      LevelCounts(cfg, venue, request, states, depth, skip, s, front);
      VisitAllCounts(cfg, venue, request, states, depth, skip,
        Level(cfg, venue, request, states, depth, skip, s, front),
        Children(cfg, venue, request, frontier[|frontier| - 1]));
    }
  }

  /** The beam keeps no more nodes than it is wide. */
  ghost predicate TrimsToWidth(cfg: Settings) {
    forall nodes :: |cfg.trim(nodes)| <= cfg.beamWidth
  }

  lemma {:induction false} DeepenCounts(
    cfg: Settings, venue: Venue, request: Request, states: seq<PoolState>, depth: nat, skip: bool, o: Outcome)
    requires depth <= cfg.maxSteps && Counted(cfg, request, o.search.(next := []))
    ensures var end := Deepen(cfg, venue, request, states, depth, skip, o);
      && Counted(cfg, request, end.search.(next := []))
      && (!cfg.exhaustive && TrimsToWidth(cfg) && |o.frontier| <= cfg.beamWidth ==> |end.frontier| <= cfg.beamWidth)
    decreases cfg.maxSteps - depth
  {
    hide Level, InOrderFound;
    if depth < cfg.maxSteps {
      var start := o.search.(next := []);
      LevelCounts(cfg, venue, request, states, depth, skip, start, o.frontier);
      var s := Level(cfg, venue, request, states, depth, skip, start, o.frontier);
      if !s.truncated && s.next != [] {
        DeepenCounts(cfg, venue, request, states, depth + 1, skip, Advance(cfg, s));
      }
    }
  }

  /** Incumbents come first and in order, then plans in the order in which they were found; the beam flag is raised only
      where more nodes were expanded than the beam is wide; and the beam stays that wide. */
  lemma SearchCounts(cfg: Settings, venue: Venue, request: Request, states: seq<PoolState>, skip: bool)
    ensures var end := Explore(cfg, venue, request, states, skip);
      && InOrderFound(cfg, request, end.search.completions, end.search.expansions)
      && (end.search.beamPruned ==> !cfg.exhaustive && end.search.expansions > cfg.beamWidth)
      && (!cfg.exhaustive && TrimsToWidth(cfg) && cfg.beamWidth > 0 ==> |end.frontier| <= cfg.beamWidth)
  {
    hide Deepen;
    DeepenCounts(cfg, venue, request, states, 0, skip, Opening(cfg, request, states));
  }

  // ---------------------------------------------------------------- the budget

  /** The same settings with another budget. */
  function WithBudget(cfg: Settings, budget: nat): Settings {
    cfg.(maxExpansions := budget)
  }

  lemma {:induction false} OutputOffersIgnoreBudget(
    cfg: Settings, budget: nat, request: Request, node: Node, index: nat, tokenIn: Address, outs: seq<Address>)
    requires index < |node.states|
    ensures OutputOffers(WithBudget(cfg, budget), request, node, index, tokenIn, outs)
         == OutputOffers(cfg, request, node, index, tokenIn, outs)
  {
    if outs != [] {
      OutputOffersIgnoreBudget(cfg, budget, request, node, index, tokenIn, outs[1..]);
    }
  }

  lemma {:induction false} InputOffersIgnoreBudget(
    cfg: Settings, budget: nat, request: Request, node: Node, index: nat, ins: seq<Address>)
    requires index < |node.states|
    ensures InputOffers(WithBudget(cfg, budget), request, node, index, ins)
         == InputOffers(cfg, request, node, index, ins)
  {
    if ins != [] {
      InputOffersIgnoreBudget(cfg, budget, request, node, index, ins[1..]);
      OutputOffersIgnoreBudget(cfg, budget, request, node, index, ins[0], node.states[index].tokens);
    }
  }

  lemma {:induction false} OffersIgnoreBudget(cfg: Settings, budget: nat, request: Request, node: Node, index: nat)
    requires index <= |node.states|
    ensures Offers(WithBudget(cfg, budget), request, node, index) == Offers(cfg, request, node, index)
    decreases |node.states| - index
  {
    if index < |node.states| {
      OffersIgnoreBudget(cfg, budget, request, node, index + 1);
      InputOffersIgnoreBudget(cfg, budget, request, node, index, node.states[index].tokens);
    }
  }

  /** Once truncated, always truncated; and a turn that ends within another budget is the same turn under it. */
  lemma VisitWithin(
    cfg: Settings, budget: nat, venue: Venue, request: Request, states: seq<PoolState>, depth: nat, skip: bool,
    s: Search, e: Event)
    ensures var t := Visit(cfg, venue, request, states, depth, skip, s, e);
      && s.expansions <= t.expansions && (s.truncated ==> t.truncated)
      && (!t.truncated && t.expansions <= budget ==>
            Visit(WithBudget(cfg, budget), venue, request, states, depth, skip, s, e) == t)
  {
    hide Evaluate, AddAllNew, AddNew;
  }

  lemma {:induction false} VisitAllWithin(
    cfg: Settings, budget: nat, venue: Venue, request: Request, states: seq<PoolState>, depth: nat, skip: bool,
    s: Search, events: seq<Event>)
    ensures var t := VisitAll(cfg, venue, request, states, depth, skip, s, events);
      && s.expansions <= t.expansions && (s.truncated ==> t.truncated)
      && (!t.truncated && t.expansions <= budget ==>
            VisitAll(WithBudget(cfg, budget), venue, request, states, depth, skip, s, events) == t)
    decreases |events|
  {
    hide Visit;
    if events != [] {
      var front := events[..|events| - 1];
      VisitAllWithin(cfg, budget, venue, request, states, depth, skip, s, front);
      VisitWithin(cfg, budget, venue, request, states, depth, skip,
        VisitAll(cfg, venue, request, states, depth, skip, s, front), events[|events| - 1]);
    }
  }

  lemma {:induction false} LevelWithin(
    cfg: Settings, budget: nat, venue: Venue, request: Request, states: seq<PoolState>, depth: nat, skip: bool,
    s: Search, frontier: seq<Node>)
    ensures var t := Level(cfg, venue, request, states, depth, skip, s, frontier);
      && s.expansions <= t.expansions && (s.truncated ==> t.truncated)
      && (!t.truncated && t.expansions <= budget ==>
            Level(WithBudget(cfg, budget), venue, request, states, depth, skip, s, frontier) == t)
    decreases |frontier|
  {
    hide VisitAll, Offers;
    if frontier != [] {
      var front, n := frontier[..|frontier| - 1], frontier[|frontier| - 1];
      LevelWithin(cfg, budget, venue, request, states, depth, skip, s, front);
      OffersIgnoreBudget(cfg, budget, request, n, 0);
      VisitAllWithin(cfg, budget, venue, request, states, depth, skip,
        Level(cfg, venue, request, states, depth, skip, s, front), Children(cfg, venue, request, n));
    }
  }

  lemma {:induction false} DeepenWithin(
    cfg: Settings, budget: nat, venue: Venue, request: Request, states: seq<PoolState>, depth: nat, skip: bool,
    o: Outcome)
    requires depth <= cfg.maxSteps
    ensures var end := Deepen(cfg, venue, request, states, depth, skip, o);
      && o.search.expansions <= end.search.expansions
      && (!end.search.truncated && end.search.expansions <= budget ==>
            Deepen(WithBudget(cfg, budget), venue, request, states, depth, skip, o) == end)
    decreases cfg.maxSteps - depth
  {
    hide Level;
    if depth < cfg.maxSteps {
      var start := o.search.(next := []);
      LevelWithin(cfg, budget, venue, request, states, depth, skip, start, o.frontier);
      var s := Level(cfg, venue, request, states, depth, skip, start, o.frontier);
      if !s.truncated && s.next != [] {
        DeepenWithin(cfg, budget, venue, request, states, depth + 1, skip, Advance(cfg, s));
      }
    }
  }

  /** A search that is not truncated is the same search under every budget that covers its expansions: it is truncated
      only where a child is left over. */
  lemma BudgetIsExact(
    cfg: Settings, budget: nat, venue: Venue, request: Request, states: seq<PoolState>, skip: bool)
    ensures var end := Explore(cfg, venue, request, states, skip);
      !end.search.truncated && end.search.expansions <= budget ==>
        Explore(WithBudget(cfg, budget), venue, request, states, skip) == end
  {
    hide Deepen;
    DeepenWithin(cfg, budget, venue, request, states, 0, skip, Opening(cfg, request, states));
  }
}
