/** What a split search finds, said of the venue's quotes alone. */
module SplitResults {
  import opened Market
  import opened Evaluator
  import opened Routes
  import opened Candidates
  import opened SplitSearch

  /** Two different routes, a grid amount for the first and the rest for the second: the grid is the fractions of the
      request, rounded down, and what they leave of it. */
  ghost predicate Splits(p: Problem, parts: int, t: Trial)
    requires parts > 0
  {
    && t.first < |p.routes| && t.second < |p.routes| && t.first != t.second
    && 0 < t.firstAmount < p.request.amountIn && t.firstAmount + t.secondAmount == p.request.amountIn
    && exists part :: 1 <= part < parts && FractionOrRest(p.request.amountIn, parts, part, t.firstAmount)
  }

  predicate FractionOrRest(amountIn: int, parts: int, part: int, amount: int)
    requires parts > 0
  {
    var fraction := amountIn * part / parts;
    amount == fraction || amount == amountIn - fraction
  }

  /** The two routes work in this order, with this output. */
  ghost predicate Gives(p: Problem, t: Trial, output: int) {
    && t.first < |p.routes| && t.second < |p.routes|
    && Works(p.venue, p.routes[t.first], p.routes[t.second], t.firstAmount, t.secondAmount, p.request, p.states)
    && Ordered(p, t).amount == Some(output)
  }

  /** The plan is that of the two routes. */
  ghost predicate Planned(p: Problem, t: Trial, plan: Plan) {
    && t.first < |p.routes| && t.second < |p.routes|
    && PlanOf(p.venue, plan, p.routes[t.first], p.routes[t.second], t.firstAmount, t.secondAmount, p.request, p.states)
  }

  lemma SplitsIsOnGrid(p: Problem, parts: int, t: Trial)
    requires parts > 0
    ensures Splits(p, parts, t) <==>
      && t.first < |p.routes| && t.second < |p.routes| && t.first != t.second
      && t.firstAmount + t.secondAmount == p.request.amountIn
      && OnGrid(p.request.amountIn, parts, parts, t.firstAmount)
  {
    var amountIn, amount := p.request.amountIn, t.firstAmount;
    if Splits(p, parts, t) {
      var part :| 1 <= part < parts && FractionOrRest(amountIn, parts, part, amount);
      assert amount in {Share(amountIn, part, parts), amountIn - Share(amountIn, part, parts)};
    }
    if OnGrid(amountIn, parts, parts, amount) {
      var part :| 1 <= part < parts
        && amount in {Share(amountIn, part, parts), amountIn - Share(amountIn, part, parts)};
      assert FractionOrRest(amountIn, parts, part, amount);
    }
  }

  /** The trials of the scan are exactly the splits. */
  lemma TrialsAreSplits(p: Problem, parts: int, t: Trial)
    requires parts > 0
    ensures t in Trials(p, AllItems(p, parts)) <==> Splits(p, parts, t)
  {
    hide AllItems, OnGrid, Splits;
    SplitsIsOnGrid(p, parts, t);
    if t in Trials(p, AllItems(p, parts)) {
      TrialIsOfAnItem(p, parts, t);
    }
    if Splits(p, parts, t) {
      BothAssignmentsAreTried(p, parts, t.first, t.second, t.firstAmount);
    }
  }

  lemma TrialIsOfAnItem(p: Problem, parts: int, t: Trial)
    requires parts > 0 && t in Trials(p, AllItems(p, parts))
    ensures t.first < |p.routes| && t.second < |p.routes| && t.first != t.second
    ensures t.firstAmount + t.secondAmount == p.request.amountIn
    ensures OnGrid(p.request.amountIn, parts, parts, t.firstAmount)
  {
    hide OnGrid, Grid, Pairs, Items;
    var it := TrialOf(p, AllItems(p, parts), t);
    ItemsCover(Grid(p.request.amountIn, parts, parts), Pairs(|p.routes|), it);
    GridIsClosed(p.request.amountIn, parts, it.amount);
  }

  lemma {:induction false} TrialOf(p: Problem, items: seq<Item>, t: Trial) returns (it: Item)
    requires t in Trials(p, items)
    ensures it in items && (t == Forward(p, it) || t == Backward(p, it))
    decreases |items|
  {
    it := items[|items| - 1];
    if t != Forward(p, it) && t != Backward(p, it) {
      it := TrialOf(p, items[..|items| - 1], t);
    }
  }

  /** A trial yields exactly what its routes give, with their plan. */
  lemma YieldIffGives(p: Problem, parts: int, t: Trial, output: int)
    requires parts > 0 && WellPosed(p) && Splits(p, parts, t)
    ensures t.first < |p.routes| && t.second < |p.routes|
    ensures Gives(p, t, output) <==> Yield(p, t).Some? && Yield(p, t).value.0 == output
    ensures Yield(p, t).Some? ==> Planned(p, t, Yield(p, t).value.1)
  {
    hide Candidate, Works, OrderedOutput, PlanOf;
    FoundIffWorks(p.venue, p.routes[t.first], p.routes[t.second], t.firstAmount, t.secondAmount, p.request, p.states);
  }

  /** Absent exactly if no split gives anything; otherwise the plan of a split that gives this output, and no split
      gives more. */
  ghost predicate BestOfAllSplits(p: Problem, parts: int, best: Best)
    requires parts > 0
  {
    match best
    case None => forall t, x :: Splits(p, parts, t) ==> !Gives(p, t, x)
    case Some((output, plan)) =>
      && (exists t :: Splits(p, parts, t) && Gives(p, t, output) && Planned(p, t, plan))
      && forall t, x :: Splits(p, parts, t) && Gives(p, t, x) ==> x <= output
  }

  lemma FirstMaximumIsBest(p: Problem, parts: int)
    requires parts > 0 && WellPosed(p)
    ensures TrialsFit(p, Trials(p, AllItems(p, parts)))
    ensures BestOfAllSplits(p, parts, Exhaust(p, Trials(p, AllItems(p, parts))))
  {
    var ts := Trials(p, AllItems(p, parts));
    AllItemsFit(p, parts);
    TrialsOfItems(p, AllItems(p, parts));
    ExhaustIsFirstMaximum(p, ts);
    hide AllItems, Trials, Exhaust;
    if Exhaust(p, ts).Some? {
      var k :| 0 <= k < |ts| && Wins(p, ts, k) && Exhaust(p, ts) == Yield(p, ts[k]);
      WinnerIsBest(p, parts, k);
    } else {
      hide Splits, Gives, Yield;
      forall t, x | Splits(p, parts, t)
        ensures !Gives(p, t, x)
      {
        TrialsAreSplits(p, parts, t);
        YieldIffGives(p, parts, t, x);
        var m :| 0 <= m < |ts| && ts[m] == t;
      }
    }
  }

  lemma WinnerIsBest(p: Problem, parts: int, k: nat)
    requires parts > 0 && WellPosed(p)
    requires var ts := Trials(p, AllItems(p, parts)); TrialsFit(p, ts) && k < |ts| && Wins(p, ts, k)
    ensures var ts := Trials(p, AllItems(p, parts)); BestOfAllSplits(p, parts, Yield(p, ts[k]))
  {
    var ts := Trials(p, AllItems(p, parts));
    hide AllItems, Trials, Splits, Gives, Planned, Yield;
    TrialsAreSplits(p, parts, ts[k]);
    YieldIffGives(p, parts, ts[k], Yield(p, ts[k]).value.0);
    forall t, x | Splits(p, parts, t) && Gives(p, t, x)
      ensures x <= Yield(p, ts[k]).value.0
    {
      TrialsAreSplits(p, parts, t);
      YieldIffGives(p, parts, t, x);
      var m :| 0 <= m < |ts| && ts[m] == t;
    }
  }

  /** Both forms of the split search, with or without the memo, return the best of all splits. */
  lemma SearchFindsTheBest(p: Problem, parts: int, name: seq<nat>, log: seq<Diagnostic>)
    requires parts > 0 && WellPosed(p) && |name| == |p.routes|
    ensures ItemsFit(p, AllItems(p, parts))
    ensures BestOfAllSplits(p, parts, ScanAll(p, name, Begin(log), AllItems(p, parts)).best)
    ensures BestOfAllSplits(p, parts, Search(p, parts, log).0)
  {
    AllItemsFit(p, parts);
    ScanIsExhaustive(p, name, log, AllItems(p, parts));
    ScanIsExhaustive(p, Identity(|p.routes|), log, AllItems(p, parts));
    SearchScans(p, parts, log);
    hide ScanAll, Exhaust, BestOfAllSplits, Search, AllItems;
    FirstMaximumIsBest(p, parts);
  }
}
