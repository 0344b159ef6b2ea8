/** The two-route split optimiser, in its original form and in the indexed rewrite, against an exhaustive scan. */
module SplitSearch {
  import opened Market
  import opened Evaluator
  import opened Routes
  import opened Capacity
  import opened SortedSets
  import OrderedPrefix

  type Best = Option<(int, Plan)>

  /** One allocation of the request to an ordered pair of routes. */
  datatype Trial = Trial(first: nat, second: nat, firstAmount: int, secondAmount: int)

  /** One turn of the two scan loops: a grid amount and an unordered pair of routes. */
  datatype Item = Item(amount: int, i: nat, j: nat)

  datatype Problem = Problem(venue: Venue, routes: seq<Route>, request: Request, states: seq<PoolState>)

  ghost predicate WellPosed(p: Problem) {
    forall r :: r in p.routes ==> Serves(r, p.request)
  }

  ghost predicate ItemsFit(p: Problem, items: seq<Item>) {
    forall it :: it in items ==> it.i < it.j < |p.routes|
  }

  // ---------------------------------------------------------------- the amount grid

  function Share(amountIn: int, part: int, parts: int): int
    requires parts > 0
  {
    amountIn * part / parts
  }

  ghost predicate OnGrid(amountIn: int, parts: int, limit: int, a: int)
    requires parts > 0
  {
    && 0 < a < amountIn
    && exists part :: 1 <= part < limit && a in {Share(amountIn, part, parts), amountIn - Share(amountIn, part, parts)}
  }

  function AddShare(grid: seq<nat>, amountIn: int, share: int): (r: seq<nat>)
    requires Increasing(grid)
    ensures Increasing(r)
    ensures forall a :: a in r <==> a in grid || (0 < a < amountIn && a == share)
  {
    if 0 < share < amountIn then InsertSorted(grid, share) else grid
  }

  lemma OnePartMore(amountIn: int, parts: int, limit: int, a: int)
    requires parts > 0 && limit > 1
    ensures OnGrid(amountIn, parts, limit, a) <==>
      || OnGrid(amountIn, parts, limit - 1, a)
      || (0 < a < amountIn && (a == Share(amountIn, limit - 1, parts)
        || a == amountIn - Share(amountIn, limit - 1, parts)))
  {
    hide Share;
    if OnGrid(amountIn, parts, limit - 1, a) {
      var part :| 1 <= part < limit - 1 && a in {Share(amountIn, part, parts), amountIn - Share(amountIn, part, parts)};
      assert 1 <= part < limit;
    }
  }

  /** The fractions of the input below `limit`/`parts` and their complements, as `sorted({...})` lists them. */
  function Grid(amountIn: int, parts: int, limit: int): (grid: seq<nat>)
    requires parts > 0
    ensures Increasing(grid)
    ensures forall a :: a in grid <==> OnGrid(amountIn, parts, limit, a)
    decreases limit
  {
    if limit <= 1 then []
    else
      assert forall a :: OnGrid(amountIn, parts, limit, a) <==>
          || OnGrid(amountIn, parts, limit - 1, a)
          || (0 < a < amountIn && (a == Share(amountIn, limit - 1, parts)
            || a == amountIn - Share(amountIn, limit - 1, parts))) by {
        forall a {
          OnePartMore(amountIn, parts, limit, a);
        }
      }
      var share := Share(amountIn, limit - 1, parts);
      AddShare(AddShare(Grid(amountIn, parts, limit - 1), amountIn, share), amountIn, amountIn - share)
  }

  /** The grid comprehension as the loop it is. */
  method AmountGrid(amountIn: int, parts: int) returns (grid: seq<nat>)
    requires parts > 0
    ensures grid == Grid(amountIn, parts, parts)
  {
    grid := [];
    var part := 1;
    while part < parts
      invariant 1 <= part <= parts
      invariant grid == Grid(amountIn, parts, part)
    {
      var share := Share(amountIn, part, parts);
      grid := AddShare(AddShare(grid, amountIn, share), amountIn, amountIn - share);
      part := part + 1;
    }
  }

  /** The grid holds the complement of each of its amounts. */
  lemma GridIsClosed(amountIn: int, parts: int, a: int)
    requires parts > 0 && OnGrid(amountIn, parts, parts, a)
    ensures OnGrid(amountIn, parts, parts, amountIn - a)
  {
    var part :| 1 <= part < parts && a in {Share(amountIn, part, parts), amountIn - Share(amountIn, part, parts)};
    assert amountIn - a in {Share(amountIn, part, parts), amountIn - Share(amountIn, part, parts)};
  }

  // ---------------------------------------------------------------- the scan order

  /** `combinations(range(n), 2)` from index i on. */
  function PairsFrom(i: nat, j: nat, n: nat): (pairs: seq<(nat, nat)>)
    requires i <= n && (i < n ==> i < j <= n)
    ensures forall a: nat, b: nat :: (a, b) in pairs <==> (i < a < b < n || (i == a < b < n && j <= b))
    decreases n - i, n - j
  {
    if i >= n then []
    else if j == n then if i + 1 < n then PairsFrom(i + 1, i + 2, n) else []
    else [(i, j)] + PairsFrom(i, j + 1, n)
  }

  function Pairs(n: nat): (pairs: seq<(nat, nat)>)
    ensures forall a: nat, b: nat :: (a, b) in pairs <==> a < b < n
  {
    if n == 0 then [] else PairsFrom(0, 1, n)
  }

  function ItemsAt(amount: int, pairs: seq<(nat, nat)>): (items: seq<Item>)
    ensures |items| == |pairs|
    ensures forall k :: 0 <= k < |pairs| ==> items[k] == Item(amount, pairs[k].0, pairs[k].1)
  {
    seq(|pairs|, k requires 0 <= k < |pairs| => Item(amount, pairs[k].0, pairs[k].1))
  }

  /** Amounts outside, pairs inside. */
  function Items(grid: seq<nat>, pairs: seq<(nat, nat)>): seq<Item> {
    if grid == [] then [] else Items(grid[..|grid| - 1], pairs) + ItemsAt(grid[|grid| - 1], pairs)
  }

  lemma {:induction false} ItemsCover(grid: seq<nat>, pairs: seq<(nat, nat)>, it: Item)
    ensures it in Items(grid, pairs) <==> it.amount in grid && (it.i, it.j) in pairs
    decreases |grid|
  {
    if grid != [] {
      var last := grid[|grid| - 1];
      ItemsCover(grid[..|grid| - 1], pairs, it);
      assert grid == grid[..|grid| - 1] + [last];
      if it in ItemsAt(last, pairs) {
        var k :| 0 <= k < |pairs| && ItemsAt(last, pairs)[k] == it;
        assert pairs[k] == (it.i, it.j);
      }
      if it.amount == last && (it.i, it.j) in pairs {
        var k :| 0 <= k < |pairs| && pairs[k] == (it.i, it.j);
        assert ItemsAt(last, pairs)[k] == it;
      }
    }
  }

  // ---------------------------------------------------------------- the exhaustive scan

  function Propose(p: Problem, t: Trial): Proposal
    requires t.first < |p.routes| && t.second < |p.routes|
  {
    Candidate(p.venue, p.routes[t.first], p.routes[t.second], t.firstAmount, t.secondAmount, p.request, p.states)
  }

  function Yield(p: Problem, t: Trial): Best
    requires t.first < |p.routes| && t.second < |p.routes|
  {
    Propose(p, t).found
  }

  function Better(best: Best, found: Best): Best {
    if found.Some? && (best.None? || found.value.0 > best.value.0) then found else best
  }

  function Forward(p: Problem, it: Item): Trial {
    Trial(it.i, it.j, it.amount, p.request.amountIn - it.amount)
  }

  function Backward(p: Problem, it: Item): Trial {
    Trial(it.j, it.i, p.request.amountIn - it.amount, it.amount)
  }

  function Trials(p: Problem, items: seq<Item>): seq<Trial> {
    if items == [] then []
    else
      Trials(p, items[..|items| - 1]) + [Forward(p, items[|items| - 1]), Backward(p, items[|items| - 1])]
  }

  ghost predicate TrialsFit(p: Problem, ts: seq<Trial>) {
    forall t :: t in ts ==> t.first < |p.routes| && t.second < |p.routes|
  }

  /** Compile and evaluate every trial, and keep the first of the best. */
  ghost function Exhaust(p: Problem, ts: seq<Trial>): Best
    requires TrialsFit(p, ts)
    decreases |ts|
  {
    if ts == [] then None
    else
      assert ts[|ts| - 1] in ts;
      Better(Exhaust(p, ts[..|ts| - 1]), Yield(p, ts[|ts| - 1]))
  }

  /** Trial k works, no trial does better, and no earlier one does as well. */
  ghost predicate Wins(p: Problem, ts: seq<Trial>, k: int)
    requires TrialsFit(p, ts) && 0 <= k < |ts|
  {
    && Yield(p, ts[k]).Some?
    && (forall m :: 0 <= m < |ts| && Yield(p, ts[m]).Some? ==> Yield(p, ts[m]).value.0 <= Yield(p, ts[k]).value.0)
    && (forall m :: 0 <= m < k && Yield(p, ts[m]).Some? ==> Yield(p, ts[m]).value.0 < Yield(p, ts[k]).value.0)
  }

  /** The exhaustive result is the earliest trial with the largest output, and None only if no trial works. */
  lemma {:induction false} ExhaustIsFirstMaximum(p: Problem, ts: seq<Trial>)
    requires TrialsFit(p, ts)
    ensures Exhaust(p, ts).None? <==> NothingWorks(p, ts)
    ensures Exhaust(p, ts).Some? ==> exists k :: 0 <= k < |ts| && Wins(p, ts, k) && Exhaust(p, ts) == Yield(p, ts[k])
    decreases |ts|
  {
    if ts != [] {
      var front, t := ts[..|ts| - 1], ts[|ts| - 1];
      assert ts == front + [t];
      ExhaustIsFirstMaximum(p, front);
      OneMoreTrial(p, front, t);
    }
  }

  ghost predicate NothingWorks(p: Problem, ts: seq<Trial>)
    requires TrialsFit(p, ts)
  {
    forall k :: 0 <= k < |ts| ==> Yield(p, ts[k]).None?
  }

  lemma OneMoreTrial(p: Problem, ts: seq<Trial>, t: Trial)
    requires TrialsFit(p, ts) && TrialsFit(p, ts + [t])
    requires Exhaust(p, ts).None? <==> NothingWorks(p, ts)
    requires Exhaust(p, ts).Some? ==> exists k :: 0 <= k < |ts| && Wins(p, ts, k) && Exhaust(p, ts) == Yield(p, ts[k])
    ensures var all := ts + [t];
      && (Exhaust(p, all).None? <==> NothingWorks(p, all))
      && (Exhaust(p, all).Some? ==>
           exists k :: 0 <= k < |all| && Wins(p, all, k) && Exhaust(p, all) == Yield(p, all[k]))
  {
    hide Yield, Wins;
    var all := ts + [t];
    assert all[..|ts|] == ts && all[|ts|] == t && t in all;
    if Exhaust(p, ts).None? {
      if Yield(p, t).Some? {
        FirstWinner(p, ts, t);
      }
    } else {
      var k :| 0 <= k < |ts| && Wins(p, ts, k) && Exhaust(p, ts) == Yield(p, ts[k]);
      WinnerWorks(p, ts, k);
      assert all[k] == ts[k];
      StillWins(p, ts, t, k);
      assert Wins(p, all, k) || Wins(p, all, |ts|);
    }
  }

  lemma WinnerWorks(p: Problem, ts: seq<Trial>, k: int)
    requires TrialsFit(p, ts) && 0 <= k < |ts| && Wins(p, ts, k)
    ensures Yield(p, ts[k]).Some? && !NothingWorks(p, ts)
  {
  }

  lemma FirstWinner(p: Problem, ts: seq<Trial>, t: Trial)
    requires TrialsFit(p, ts) && TrialsFit(p, ts + [t]) && t in ts + [t] && Yield(p, t).Some?
    requires forall k :: 0 <= k < |ts| ==> Yield(p, ts[k]).None?
    ensures Wins(p, ts + [t], |ts|)
  {
    hide Yield;
  }

  lemma StillWins(p: Problem, ts: seq<Trial>, t: Trial, k: int)
    requires TrialsFit(p, ts) && TrialsFit(p, ts + [t]) && t in ts + [t] && 0 <= k < |ts| && Wins(p, ts, k)
    ensures if Yield(p, t).Some? && Yield(p, t).value.0 > Yield(p, ts[k]).value.0
      then Wins(p, ts + [t], |ts|) else Wins(p, ts + [t], k)
  {
    hide Yield;
    assert forall m :: 0 <= m < |ts| ==> (ts + [t])[m] == ts[m];
  }

  // ---------------------------------------------------------------- the pruned, cached scan

  /** What the scan updates. `name` says which routes share a quote: the first equal one in the original,
      each its own in the rewrite. */
  datatype Scan = Scan(best: Best, log: seq<Diagnostic>, quoted: set<(nat, int)>, conflicts: set<(nat, nat)>)

  function Consult(p: Problem, name: seq<nat>, s: Scan, i: nat, amount: int): Scan
    requires i < |p.routes| && |name| == |p.routes|
  {
    if (name[i], amount) in s.quoted then s
    else s.(quoted := s.quoted + {(name[i], amount)},
            log := s.log + RouteOutput(p.venue, p.routes[i], amount, PoolsById(p.states)).log)
  }

  /** Compile and evaluate only what the prediction allows to win. */
  function Consider(p: Problem, s: Scan, t: Trial, predicted: Option<int>): Scan
    requires t.first < |p.routes| && t.second < |p.routes|
  {
    if predicted.None? || (s.best.Some? && predicted.value <= s.best.value.0) then s
    else
      var c := Propose(p, t);
      s.(best := Better(s.best, c.found), log := s.log + c.log)
  }

  function Ordered(p: Problem, t: Trial): Quoted
    requires t.first < |p.routes| && t.second < |p.routes|
  {
    OrderedOutput(p.venue, p.routes[t.first], p.routes[t.second], t.firstAmount, t.secondAmount, PoolsById(p.states))
  }

  function Sum(a: Option<int>, b: Option<int>): Option<int> {
    if a.Some? && b.Some? then Some(a.value + b.value) else None
  }

  function Separate(p: Problem, it: Item): Option<int>
    requires it.i < it.j < |p.routes|
  {
    var pools := PoolsById(p.states);
    Sum(RouteOutput(p.venue, p.routes[it.i], it.amount, pools).amount,
        RouteOutput(p.venue, p.routes[it.j], p.request.amountIn - it.amount, pools).amount)
  }

  function ConflictReport(p: Problem, it: Item): Diagnostic
    requires it.i < it.j < |p.routes|
  {
    Infeasible(PathOf(p.routes[it.i].hops) + PathOf(p.routes[it.j].hops), p.request.amountIn, [SharedCapacity])
  }

  /** Quoting an ordered pair and weighing the trial. */
  function ConsiderInOrder(p: Problem, s: Scan, t: Trial): Scan
    requires t.first < |p.routes| && t.second < |p.routes|
  {
    var q := Ordered(p, t);
    Consider(p, s.(log := s.log + q.log), t, q.amount)
  }

  /** Quoting both routes of an independent pair and weighing both orders on the sum. */
  function ConsiderSeparate(p: Problem, name: seq<nat>, s: Scan, it: Item): Scan
    requires it.i < it.j < |p.routes| && |name| == |p.routes|
  {
    var s1 := Consult(p, name, Consult(p, name, s, it.i, it.amount), it.j, p.request.amountIn - it.amount);
    var predicted := Separate(p, it);
    Consider(p, Consider(p, s1, Forward(p, it), predicted), Backward(p, it), predicted)
  }

  function ScanItem(p: Problem, name: seq<nat>, s: Scan, it: Item): Scan
    requires it.i < it.j < |p.routes| && |name| == |p.routes|
  {
    match RelationOf(p.routes[it.i], p.routes[it.j], PoolsById(p.states))
    case Conflicting =>
      if (name[it.i], name[it.j]) in s.conflicts then s
      else s.(conflicts := s.conflicts + {(name[it.i], name[it.j])}, log := s.log + [ConflictReport(p, it)])
    case Overlapping =>
      ConsiderInOrder(p, ConsiderInOrder(p, s, Forward(p, it)), Backward(p, it))
    case Independent =>
      ConsiderSeparate(p, name, s, it)
  }

  ghost function ScanAll(p: Problem, name: seq<nat>, s: Scan, items: seq<Item>): Scan
    requires ItemsFit(p, items) && |name| == |p.routes|
    decreases |items|
  {
    if items == [] then s
    else
      assert items[|items| - 1] in items;
      ScanItem(p, name, ScanAll(p, name, s, items[..|items| - 1]), items[|items| - 1])
  }

  function Begin(log: seq<Diagnostic>): Scan {
    Scan(None, log, {}, {})
  }

  // ---------------------------------------------------------------- pruning loses nothing

  /** Whatever a trial yields, some prediction of the scan already announced it exactly. */
  lemma PredictionIsExact(p: Problem, t: Trial)
    requires WellPosed(p) && t.first < |p.routes| && t.second < |p.routes|
    requires t.firstAmount + t.secondAmount == p.request.amountIn
    requires Yield(p, t).Some?
    ensures Ordered(p, t).amount == Some(Yield(p, t).value.0)
  {
    hide Candidate, OrderedOutput;
    CandidateIsPredicted(p.venue, p.routes[t.first], p.routes[t.second], t.firstAmount, t.secondAmount, p.request,
      p.states);
  }

  lemma ConsiderKeepsBest(p: Problem, s: Scan, t: Trial, predicted: Option<int>)
    requires t.first < |p.routes| && t.second < |p.routes|
    requires Yield(p, t).Some? ==> predicted == Some(Yield(p, t).value.0)
    ensures Consider(p, s, t, predicted).best == Better(s.best, Yield(p, t))
  {
    hide Propose;
  }

  lemma ScanItemKeepsBest(p: Problem, name: seq<nat>, s: Scan, it: Item)
    requires WellPosed(p) && it.i < it.j < |p.routes| && |name| == |p.routes|
    ensures ScanItem(p, name, s, it).best
         == Better(Better(s.best, Yield(p, Forward(p, it))), Yield(p, Backward(p, it)))
  {
    hide Yield, Consider, Ordered, RouteOutput, PoolsById;
    var there, back := Forward(p, it), Backward(p, it);
    var pools := PoolsById(p.states);
    var first, second := p.routes[it.i], p.routes[it.j];
    match RelationOf(first, second, pools) {
      case Conflicting =>
        NothingProposed(p, it);
      case Overlapping =>
        if Yield(p, there).Some? { PredictionIsExact(p, there); }
        if Yield(p, back).Some? { PredictionIsExact(p, back); }
        var s1 := s.(log := s.log + Ordered(p, there).log);
        ConsiderKeepsBest(p, s1, there, Ordered(p, there).amount);
        var s2 := Consider(p, s1, there, Ordered(p, there).amount);
        ConsiderKeepsBest(p, s2.(log := s2.log + Ordered(p, back).log), back, Ordered(p, back).amount);
      case Independent =>
        SeparateIsOrdered(p, it);
        if Yield(p, there).Some? { PredictionIsExact(p, there); }
        if Yield(p, back).Some? { PredictionIsExact(p, back); }
        var s1 := Consult(p, name, Consult(p, name, s, it.i, it.amount), it.j, p.request.amountIn - it.amount);
        ConsiderKeepsBest(p, s1, there, Separate(p, it));
        ConsiderKeepsBest(p, Consider(p, s1, there, Separate(p, it)), back, Separate(p, it));
    }
  }

  lemma NothingProposed(p: Problem, it: Item)
    requires it.i < it.j < |p.routes|
    requires RelationOf(p.routes[it.i], p.routes[it.j], PoolsById(p.states)) == Conflicting
    ensures Yield(p, Forward(p, it)).None? && Yield(p, Backward(p, it)).None?
  {
    hide Candidate;
    var pools, first, second := PoolsById(p.states), p.routes[it.i], p.routes[it.j];
    if CrossClash(first, second, pools) {
      var h, k :| h in first.hops && k in second.hops && Clash(pools, h.poolId, k.poolId);
      assert Clash(pools, k.poolId, h.poolId);
      assert CrossClash(second, first, pools);
    }
    ConflictIsRejected(p.venue, first, second, it.amount, p.request.amountIn - it.amount, p.request, p.states);
    ConflictIsRejected(p.venue, second, first, p.request.amountIn - it.amount, it.amount, p.request, p.states);
  }

  lemma SeparateIsOrdered(p: Problem, it: Item)
    requires it.i < it.j < |p.routes| && !Overlap(p.routes[it.i], p.routes[it.j])
    ensures Ordered(p, Forward(p, it)).amount == Separate(p, it) == Ordered(p, Backward(p, it)).amount
  {
    hide OrderedOutput, RouteOutput;
    var pools, first, second := PoolsById(p.states), p.routes[it.i], p.routes[it.j];
    assert !Overlap(second, first);
    DisjointRoutesAdd(p.venue, first, second, it.amount, p.request.amountIn - it.amount, pools);
    DisjointRoutesAdd(p.venue, second, first, p.request.amountIn - it.amount, it.amount, pools);
  }

  /** The pruned, cached scan ends with exactly the exhaustive result, whichever routes share quotes. */
  lemma {:induction false} ScanIsExhaustive(p: Problem, name: seq<nat>, log: seq<Diagnostic>, items: seq<Item>)
    requires WellPosed(p) && ItemsFit(p, items) && |name| == |p.routes|
    ensures TrialsFit(p, Trials(p, items))
    ensures ScanAll(p, name, Begin(log), items).best == Exhaust(p, Trials(p, items))
    decreases |items|
  {
    hide ScanItem, Yield, WellPosed, Better;
    TrialsOfItems(p, items);
    if items == [] {
      assert Trials(p, items) == [];
    } else {
      var front, it := items[..|items| - 1], items[|items| - 1];
      assert it in items;
      ScanIsExhaustive(p, name, log, front);
      TrialsOfItems(p, front);
      TwoMoreTrials(p, Trials(p, front), Forward(p, it), Backward(p, it));
      ScanItemKeepsBest(p, name, ScanAll(p, name, Begin(log), front), it);
    }
  }

  lemma TwoMoreTrials(p: Problem, ts: seq<Trial>, a: Trial, b: Trial)
    requires TrialsFit(p, ts + [a, b]) && TrialsFit(p, ts)
    requires a in ts + [a, b] && b in ts + [a, b]
    ensures Exhaust(p, ts + [a, b]) == Better(Better(Exhaust(p, ts), Yield(p, a)), Yield(p, b))
  {
    hide Yield, Better;
    var all := ts + [a, b];
    assert all[..|all| - 1] == ts + [a];
    assert (ts + [a])[..|ts|] == ts;
  }

  lemma {:induction false} TrialsOfItems(p: Problem, items: seq<Item>)
    requires ItemsFit(p, items)
    ensures TrialsFit(p, Trials(p, items))
    decreases |items|
  {
    if items != [] {
      assert items[|items| - 1] in items;
      TrialsOfItems(p, items[..|items| - 1]);
    }
  }

  lemma {:induction false} EveryItemIsTried(p: Problem, items: seq<Item>, it: Item)
    requires it in items
    ensures Forward(p, it) in Trials(p, items) && Backward(p, it) in Trials(p, items)
    decreases |items|
  {
    assert items == items[..|items| - 1] + [items[|items| - 1]];
    if it != items[|items| - 1] {
      EveryItemIsTried(p, items[..|items| - 1], it);
    }
  }

  // ---------------------------------------------------------------- the whole scan

  function AllItems(p: Problem, parts: int): seq<Item>
    requires parts > 0
  {
    Items(Grid(p.request.amountIn, parts, parts), Pairs(|p.routes|))
  }

  lemma PairsAreOrdered(n: nat)
    ensures forall k :: 0 <= k < |Pairs(n)| ==> Pairs(n)[k].0 < Pairs(n)[k].1 < n
  {
    forall k | 0 <= k < |Pairs(n)|
      ensures Pairs(n)[k].0 < Pairs(n)[k].1 < n
    {
      assert (Pairs(n)[k].0, Pairs(n)[k].1) in Pairs(n);
    }
  }

  lemma NoRows(pairs: seq<(nat, nat)>)
    ensures Items([], pairs) == []
  {
  }

  lemma OneMoreRow(grid: seq<nat>, pairs: seq<(nat, nat)>, a: nat)
    requires a < |grid|
    ensures Items(grid[..a + 1], pairs) == Items(grid[..a], pairs) + ItemsAt(grid[a], pairs)
  {
    assert grid[..a + 1][..a] == grid[..a];
  }

  lemma AllItemsFit(p: Problem, parts: int)
    requires parts > 0
    ensures ItemsFit(p, AllItems(p, parts))
  {
    forall it | it in AllItems(p, parts)
      ensures it.i < it.j < |p.routes|
    {
      ItemsCover(Grid(p.request.amountIn, parts, parts), Pairs(|p.routes|), it);
    }
  }

  /** Every ordered pair of different routes is tried with every grid amount, and each trial spends the request. */
  lemma BothAssignmentsAreTried(p: Problem, parts: int, i: nat, j: nat, amount: int)
    requires parts > 0 && i < |p.routes| && j < |p.routes| && i != j
    requires OnGrid(p.request.amountIn, parts, parts, amount)
    ensures Trial(i, j, amount, p.request.amountIn - amount) in Trials(p, AllItems(p, parts))
  {
    hide Grid, Pairs, Items, Trials;
    var rest := p.request.amountIn - amount;
    var it := if i < j then Item(amount, i, j) else Item(rest, j, i);
    GridIsClosed(p.request.amountIn, parts, amount);
    ItemsCover(Grid(p.request.amountIn, parts, parts), Pairs(|p.routes|), it);
    EveryItemIsTried(p, AllItems(p, parts), it);
  }

  lemma {:induction false} TrialsSpendTheRequest(p: Problem, items: seq<Item>, t: Trial)
    requires t in Trials(p, items)
    ensures t.firstAmount + t.secondAmount == p.request.amountIn
    decreases |items|
  {
    if t in Trials(p, items[..|items| - 1]) {
      TrialsSpendTheRequest(p, items[..|items| - 1], t);
    }
  }

  function Identity(n: nat): (name: seq<nat>)
    ensures |name| == n && forall i :: 0 <= i < n ==> name[i] == i
  {
    seq(n, i requires 0 <= i < n => i)
  }

  function FirstEqual(routes: seq<Route>, r: Route): (k: nat)
    requires r in routes
    ensures k < |routes| && routes[k] == r && forall i :: 0 <= i < k ==> routes[i] != r
  {
    if routes[0] == r then 0 else FirstEqual(routes[1..], r) + 1
  }

  /** Each route named by its first equal one: what a cache keyed on the route itself amounts to. */
  function ByValue(routes: seq<Route>): (name: seq<nat>)
    ensures |name| == |routes|
    ensures forall i, j :: 0 <= i < |routes| && 0 <= j < |routes| ==> (name[i] == name[j] <==> routes[i] == routes[j])
  {
    seq(|routes|, i requires 0 <= i < |routes| => FirstEqual(routes, routes[i]))
  }

  /** The keys name the routes: equal keys are equal names, and then equal routes. */
  ghost predicate Keyed<K(!new)>(p: Problem, keys: seq<K>, name: seq<nat>) {
    && |keys| == |name| == |p.routes|
    && (forall i, j :: 0 <= i < |keys| && 0 <= j < |keys| ==> (keys[i] == keys[j] <==> name[i] == name[j]))
    && (forall i, j :: 0 <= i < |keys| && 0 <= j < |keys| && keys[i] == keys[j] ==> p.routes[i] == p.routes[j])
  }

  ghost predicate CacheMatches<K(!new)>(
    p: Problem, keys: seq<K>, name: seq<nat>, quotes: map<(K, int), Option<int>>, s: Scan)
    requires |keys| == |name| == |p.routes|
  {
    && (forall i, a :: 0 <= i < |keys| ==> ((keys[i], a) in quotes <==> (name[i], a) in s.quoted))
    && (forall i, a :: 0 <= i < |keys| && (keys[i], a) in quotes ==>
         quotes[(keys[i], a)] == RouteOutput(p.venue, p.routes[i], a, PoolsById(p.states)).amount)
  }

  ghost predicate ReportsMatch<K(!new)>(keys: seq<K>, name: seq<nat>, reported: set<(K, K)>, s: Scan)
    requires |keys| == |name|
  {
    forall i, j :: 0 <= i < |keys| && 0 <= j < |keys| ==>
      ((keys[i], keys[j]) in reported <==> (name[i], name[j]) in s.conflicts)
  }

  class BaselineSolver {
    const gridParts: int
    /** The memo of ordered quotes, while its scope is open. */
    const scope: OrderedPrefix.PrefixScope?
    var unsupported: seq<Diagnostic>

    constructor (gridParts: int, scope: OrderedPrefix.PrefixScope?)
      requires gridParts > 0
      ensures this.gridParts == gridParts && this.scope == scope && unsupported == []
    {
      this.gridParts, this.scope := gridParts, scope;
      unsupported := [];
    }

    ghost function Memo(): set<object> {
      if scope == null then {} else {scope.memo}
    }

    /** The dictionary that the search passes around holds the states by id, and an open scope can serve it. */
    ghost predicate Ready(p: Problem, dict: OrderedPrefix.Dict)
      reads scope, Memo()
    {
      && PoolsById(p.states) == OrderedPrefix.States(dict.entries)
      && (scope != null ==> scope.venue == p.venue && scope.Valid() && scope.OwnIdentity(dict))
    }

    /** `_ordered_output`, patched or not. */
    method QuoteInOrder(p: Problem, t: Trial, dict: OrderedPrefix.Dict) returns (q: Quoted)
      requires Ready(p, dict) && t.first < |p.routes| && t.second < |p.routes|
      modifies Memo()
      ensures Ready(p, dict) && q == Ordered(p, t)
    {
      hide PoolsById, OrderedPrefix.States, OrderedOutput, OrderedPrefix.OrderedPrefixMemo.Valid;
      if scope == null {
        return Ordered(p, t);
      }
      var call := OrderedPrefix.Call(p.routes[t.first], p.routes[t.second], t.firstAmount, t.secondAmount);
      q := scope.OrderedOutputMemo(call, dict);
    }

    /** `route_output`: quote a route once per key and amount. */
    method QuoteOnce<K(!new, ==)>(
      p: Problem, keys: seq<K>, ghost name: seq<nat>, i: nat, amount: int, quotes: map<(K, int), Option<int>>,
      ghost s: Scan)
      returns (out: Option<int>, quotes': map<(K, int), Option<int>>)
      requires Keyed(p, keys, name) && i < |keys| && CacheMatches(p, keys, name, quotes, s)
      modifies this`unsupported
      ensures out == RouteOutput(p.venue, p.routes[i], amount, PoolsById(p.states)).amount
      ensures CacheMatches(p, keys, name, quotes', Consult(p, name, s, i, amount))
      ensures old(unsupported) == s.log ==> unsupported == Consult(p, name, s, i, amount).log
    {
      hide RouteOutput;
      quotes' := quotes;
      if (keys[i], amount) !in quotes {
        var quoted := RouteOutput(p.venue, p.routes[i], amount, PoolsById(p.states));
        quotes' := quotes[(keys[i], amount) := quoted.amount];
        unsupported := unsupported + quoted.log;
      }
      out := quotes'[(keys[i], amount)];
    }

    /** `candidate`: compile only what may still win. */
    method TryTrial(p: Problem, t: Trial, predicted: Option<int>, best: Best) returns (best': Best)
      requires t.first < |p.routes| && t.second < |p.routes|
      modifies this`unsupported
      ensures forall s: Scan {:trigger Consider(p, s, t, predicted)} :: s.best == best && s.log == old(unsupported) ==>
        best' == Consider(p, s, t, predicted).best && unsupported == Consider(p, s, t, predicted).log
    {
      hide Candidate;
      if predicted.None? || (best.Some? && predicted.value <= best.value.0) {
        return best;
      }
      var c := Propose(p, t);
      unsupported := unsupported + c.log;
      best' := if c.found.Some? && (best.None? || c.found.value.0 > best.value.0) then c.found else best;
    }

    /** `candidate` on what the routes come to in this order. */
    method TryInOrder(p: Problem, t: Trial, best: Best, dict: OrderedPrefix.Dict, ghost s: Scan) returns (best': Best)
      requires t.first < |p.routes| && t.second < |p.routes| && Ready(p, dict)
      requires best == s.best && unsupported == s.log
      modifies this`unsupported, Memo()
      ensures Ready(p, dict)
      ensures var after := ConsiderInOrder(p, s, t);
        best' == after.best && unsupported == after.log && after.quoted == s.quoted && after.conflicts == s.conflicts
    {
      hide Ready, Consider, Ordered;
      var q := QuoteInOrder(p, t, dict);
      unsupported := unsupported + q.log;
      best' := TryTrial(p, t, q.amount, best);
      ConsiderLeavesCaches(p, s.(log := s.log + q.log), t, q.amount);
    }

    /** Both orders of an independent pair, on one sum of cached quotes. */
    method TrySeparate<K(!new, ==)>(
      p: Problem, keys: seq<K>, ghost name: seq<nat>, it: Item, quotes: map<(K, int), Option<int>>, best: Best,
      ghost s: Scan)
      returns (quotes': map<(K, int), Option<int>>, best': Best)
      requires Keyed(p, keys, name) && |keys| == |name| == |p.routes| && it.i < it.j < |p.routes|
      requires CacheMatches(p, keys, name, quotes, s) && best == s.best && unsupported == s.log
      modifies this`unsupported
      ensures var after := ConsiderSeparate(p, name, s, it);
        && CacheMatches(p, keys, name, quotes', after) && after.conflicts == s.conflicts
        && best' == after.best && unsupported == after.log
    {
      hide RouteOutput, Consider, Keyed;
      var there, back := Forward(p, it), Backward(p, it);
      var x, y: Option<int>;
      x, quotes' := QuoteOnce(p, keys, name, it.i, it.amount, quotes, s);
      ghost var s1 := Consult(p, name, s, it.i, it.amount);
      y, quotes' := QuoteOnce(p, keys, name, it.j, p.request.amountIn - it.amount, quotes', s1);
      ghost var s2 := Consult(p, name, s1, it.j, p.request.amountIn - it.amount);
      var predicted := if x.None? || y.None? then None else Some(x.value + y.value);
      best' := TryTrial(p, there, predicted, best);
      ghost var s3 := Consider(p, s2, there, predicted);
      ConsiderLeavesCaches(p, s2, there, predicted);
      best' := TryTrial(p, back, predicted, best');
      ConsiderLeavesCaches(p, s3, back, predicted);
      assert predicted == Separate(p, it);
    }

    /** The body of the scan loops for one amount and pair. */
    method VisitItem<K(!new, ==)>(
      p: Problem, keys: seq<K>, ghost name: seq<nat>, relation: Relation, it: Item, quotes: map<(K, int), Option<int>>,
      reported: set<(K, K)>, best: Best, dict: OrderedPrefix.Dict, ghost s: Scan)
      returns (quotes': map<(K, int), Option<int>>, reported': set<(K, K)>, best': Best)
      requires Keyed(p, keys, name) && |keys| == |name| == |p.routes| && it.i < it.j < |p.routes|
      requires relation == RelationOf(p.routes[it.i], p.routes[it.j], PoolsById(p.states))
      requires CacheMatches(p, keys, name, quotes, s) && ReportsMatch(keys, name, reported, s)
      requires best == s.best && unsupported == s.log && Ready(p, dict)
      modifies this`unsupported, Memo()
      ensures Ready(p, dict)
      ensures var after := ScanItem(p, name, s, it);
        && CacheMatches(p, keys, name, quotes', after) && ReportsMatch(keys, name, reported', after)
        && best' == after.best && unsupported == after.log
    {
      hide ConsiderSeparate, ConsiderInOrder, RouteOutput, Keyed, RelationOf, PoolsById, Ready;
      quotes', reported', best' := quotes, reported, best;
      var there, back := Forward(p, it), Backward(p, it);
      match relation {
        case Conflicting =>
          if (keys[it.i], keys[it.j]) !in reported {
            unsupported := unsupported + [ConflictReport(p, it)];
            reported' := reported + {(keys[it.i], keys[it.j])};
            NewReport(p, keys, name, reported, s, it.i, it.j);
          }
        case Overlapping =>
          best' := TryInOrder(p, there, best', dict, s);
          ghost var s1 := ConsiderInOrder(p, s, there);
          best' := TryInOrder(p, back, best', dict, s1);
          assert ConsiderInOrder(p, s1, back) == ScanItem(p, name, s, it);
        case Independent =>
          quotes', best' := TrySeparate(p, keys, name, it, quotes', best', s);
      }
    }

    /** `best_split` with its quote cache and conflict set keyed by `keys`. */
    method ScanPairs<K(!new, ==)>(p: Problem, keys: seq<K>, ghost name: seq<nat>, dict: OrderedPrefix.Dict)
      returns (best: Best)
      requires Keyed(p, keys, name) && |keys| == |name| == |p.routes| && gridParts > 0 && Ready(p, dict)
      modifies this`unsupported, Memo()
      ensures Ready(p, dict)
      ensures ItemsFit(p, AllItems(p, gridParts))
      ensures var s := ScanAll(p, name, Begin(old(unsupported)), AllItems(p, gridParts));
        best == s.best && unsupported == s.log
    {
      hide RelationOf, ScanAll, CacheMatches, ReportsMatch, PoolsById, Keyed, InStep, OnGrid, Ready, Items, ItemsFit,
        Pairs, Grid, Increasing;
      AllItemsFit(p, gridParts);
      var pairs := Pairs(|p.routes|);
      PairsAreOrdered(|p.routes|);
      var relations := ClassifyPairs(p, pairs);
      var grid := AmountGrid(p.request.amountIn, gridParts);
      best := None;
      var quotes: map<(K, int), Option<int>>, reported: set<(K, K)> := map[], {};
      ghost var start := Begin(unsupported);
      NothingCached(p, keys, name, unsupported);
      NoRows(pairs);
      var a := 0;
      while a < |grid|
        invariant 0 <= a <= |grid| && Ready(p, dict)
        invariant InStep(p, keys, name, start, Items(grid[..a], pairs), quotes, reported, best, unsupported)
      {
        OneMoreRow(grid, pairs, a);
        quotes, reported, best :=
          ScanRow(p, keys, name, relations, grid[a], pairs, quotes, reported, best, dict, start,
            Items(grid[..a], pairs));
        a := a + 1;
      }
      assert grid[..|grid|] == grid;
      InStepMeans(p, keys, name, start, AllItems(p, gridParts), quotes, reported, best, unsupported);
    }

    /** The inner loop: every pair at one grid amount. */
    method ScanRow<K(!new, ==)>(
      p: Problem, keys: seq<K>, ghost name: seq<nat>, relations: seq<Relation>, amount: int, pairs: seq<(nat, nat)>,
      quotes: map<(K, int), Option<int>>, reported: set<(K, K)>, best: Best, dict: OrderedPrefix.Dict,
      ghost start: Scan, ghost done: seq<Item>)
      returns (quotes': map<(K, int), Option<int>>, reported': set<(K, K)>, best': Best)
      requires Keyed(p, keys, name) && |relations| == |pairs|
      requires forall k :: 0 <= k < |pairs| ==> pairs[k].0 < pairs[k].1 < |p.routes|
      requires forall k :: 0 <= k < |pairs| ==>
        relations[k] == RelationOf(p.routes[pairs[k].0], p.routes[pairs[k].1], PoolsById(p.states))
      requires InStep(p, keys, name, start, done, quotes, reported, best, unsupported) && Ready(p, dict)
      modifies this`unsupported, Memo()
      ensures Ready(p, dict)
      ensures InStep(p, keys, name, start, done + ItemsAt(amount, pairs), quotes', reported', best', unsupported)
    {
      hide RelationOf, ScanItem, CacheMatches, ReportsMatch, PoolsById, Keyed, ScanAll, Ready;
      quotes', reported', best' := quotes, reported, best;
      ghost var row := ItemsAt(amount, pairs);
      assert done + row[..0] == done;
      var b := 0;
      while b < |pairs|
        invariant 0 <= b <= |pairs| && Ready(p, dict)
        invariant InStep(p, keys, name, start, done + row[..b], quotes', reported', best', unsupported)
      {
        var it := Item(amount, pairs[b].0, pairs[b].1);
        assert done + row[..b + 1] == done + row[..b] + [it];
        OneMoreItem(p, name, start, done + row[..b], it);
        ghost var s := ScanAll(p, name, start, done + row[..b]);
        quotes', reported', best' := VisitItem(p, keys, name, relations[b], it, quotes', reported', best', dict, s);
        b := b + 1;
      }
      assert row[..|pairs|] == row;
    }

    /** The original `_best_split`, whose caches are keyed by route value. */
    method BestSplit(p: Problem, dict: OrderedPrefix.Dict) returns (best: Best)
      requires gridParts > 0 && Ready(p, dict)
      modifies this`unsupported, Memo()
      ensures Ready(p, dict)
      ensures ItemsFit(p, AllItems(p, gridParts))
      ensures var s := ScanAll(p, ByValue(p.routes), Begin(old(unsupported)), AllItems(p, gridParts));
        best == s.best && unsupported == s.log
    {
      best := ScanPairs(p, p.routes, ByValue(p.routes), dict);
    }

    /** The rewritten `best_split`, whose caches are keyed by route index. */
    method BestSplitIndexed(p: Problem, dict: OrderedPrefix.Dict) returns (best: Best)
      requires gridParts > 0 && Ready(p, dict)
      modifies this`unsupported, Memo()
      ensures Ready(p, dict)
      ensures ItemsFit(p, AllItems(p, gridParts))
      ensures var s := ScanAll(p, Identity(|p.routes|), Begin(old(unsupported)), AllItems(p, gridParts));
        best == s.best && unsupported == s.log
    {
      best := ScanPairs(p, Identity(|p.routes|), Identity(|p.routes|), dict);
    }

    /** The rewritten form inside the scope of the ordered-quote memo: the same best and the same diagnostics. */
    method BestSplitMemoised(p: Problem, dict: OrderedPrefix.Dict) returns (best: Best)
      requires gridParts > 0 && scope != null && scope.Valid() && scope.allowedMaps == [] && scope.venue == p.venue
      requires OrderedPrefix.OwnIds(scope.base, dict.entries)
        && PoolsById(p.states) == OrderedPrefix.States(dict.entries)
      modifies this`unsupported, scope, scope.memo
      ensures scope.Valid() && scope.allowedMaps == []
      ensures (best, unsupported) == Search(p, gridParts, old(unsupported))
    {
      hide PoolsById, OrderedPrefix.States, OrderedPrefix.OwnIds, OrderedPrefix.OrderedPrefixMemo.Valid, ScanAll,
        Search;
      var admitted := scope.Enter(dict);
      SearchScans(p, gridParts, unsupported);
      best := BestSplitIndexed(p, dict);
      scope.Leave(admitted);
    }
  }

  /** What the plain form finds and logs. */
  ghost function Search(p: Problem, parts: int, log: seq<Diagnostic>): (Best, seq<Diagnostic>)
    requires parts > 0
  {
    AllItemsFit(p, parts);
    var s := ScanAll(p, Identity(|p.routes|), Begin(log), AllItems(p, parts));
    (s.best, s.log)
  }

  lemma SearchScans(p: Problem, parts: int, log: seq<Diagnostic>)
    requires parts > 0
    ensures ItemsFit(p, AllItems(p, parts))
    ensures var s := ScanAll(p, Identity(|p.routes|), Begin(log), AllItems(p, parts));
      Search(p, parts, log) == (s.best, s.log)
  {
    hide ScanAll;
    AllItemsFit(p, parts);
  }

  /** One call of the split search, with the dictionary of its states. */
  datatype SplitCall = SplitCall(problem: Problem, dict: OrderedPrefix.Dict)

  /** The states that the dictionary holds are the problem's, alive beside the prepared ones. */
  ghost predicate CallFits(venue: Venue, base: map<PoolId, Object>, c: SplitCall) {
    && c.problem.venue == venue && OrderedPrefix.OwnIds(base, c.dict.entries)
    && PoolsById(c.problem.states) == OrderedPrefix.States(c.dict.entries)
  }

  /** Both layers stacked, over all searches of a scope, on prepared states or others and with any memo size: each finds
      the best and logs the diagnostics of the plain search. */
  method RunSearches(venue: Venue, base: map<PoolId, Object>, maxsize: int, parts: int, calls: seq<SplitCall>)
    returns (results: seq<(Best, seq<Diagnostic>)>)
    requires parts > 0 && forall c :: c in calls ==> CallFits(venue, base, c)
    ensures |results| == |calls|
    ensures forall i :: 0 <= i < |calls| ==> results[i] == Search(calls[i].problem, parts, [])
  {
    hide Search, PoolsById, OrderedPrefix.States, OrderedPrefix.OwnIds, OrderedPrefix.OrderedPrefixMemo.Valid;
    var scope := new OrderedPrefix.PrefixScope(venue, base, maxsize);
    results := [];
    for i := 0 to |calls|
      invariant fresh(scope) && fresh(scope.memo) && scope.Valid() && scope.allowedMaps == []
      invariant scope.venue == venue && scope.base == base
      invariant |results| == i && forall j :: 0 <= j < i ==> results[j] == Search(calls[j].problem, parts, [])
    {
      assert CallFits(venue, base, calls[i]);
      var solver := new BaselineSolver(parts, scope);
      var best := solver.BestSplitMemoised(calls[i].problem, calls[i].dict);
      results := results + [(best, solver.unsupported)];
    }
  }

  /** The relation of every pair, from one owner table per route. */
  method ClassifyPairs(p: Problem, pairs: seq<(nat, nat)>) returns (relations: seq<Relation>)
    requires forall k :: 0 <= k < |pairs| ==> pairs[k].0 < pairs[k].1 < |p.routes|
    ensures |relations| == |pairs|
    ensures forall k :: 0 <= k < |pairs| ==>
      relations[k] == RelationOf(p.routes[pairs[k].0], p.routes[pairs[k].1], PoolsById(p.states))
  {
    hide RelationOf, Broken, PoolsById;
    var pools := PoolsById(p.states);
    var capacities: seq<Option<map<string, PoolId>>> := [];
    for i := 0 to |p.routes|
      invariant |capacities| == i
      invariant forall j :: 0 <= j < i ==> Owns(p.routes[j], pools, capacities[j])
    {
      var owners := CapacityOwners(p.routes[i], pools);
      capacities := capacities + [owners];
    }
    relations := [];
    for k := 0 to |pairs|
      invariant |relations| == k
      invariant forall m :: 0 <= m < k ==> relations[m] == RelationOf(p.routes[pairs[m].0], p.routes[pairs[m].1], pools)
    {
      var (i, j) := pairs[k];
      var relation := Classify(p.routes[i], p.routes[j], pools, capacities[i], capacities[j]);
      relations := relations + [relation];
    }
  }

  /** The scan's locals are those of the specification after these items. */
  ghost predicate InStep<K(!new)>(
    p: Problem, keys: seq<K>, name: seq<nat>, start: Scan, items: seq<Item>, quotes: map<(K, int), Option<int>>,
    reported: set<(K, K)>, best: Best, log: seq<Diagnostic>)
  {
    && |keys| == |name| == |p.routes| && ItemsFit(p, items)
    && var s := ScanAll(p, name, start, items);
    && CacheMatches(p, keys, name, quotes, s) && ReportsMatch(keys, name, reported, s)
    && best == s.best && log == s.log
  }

  lemma NothingCached<K(!new)>(p: Problem, keys: seq<K>, name: seq<nat>, log: seq<Diagnostic>)
    requires |keys| == |name| == |p.routes|
    ensures InStep(p, keys, name, Begin(log), [], map[], {}, None, log)
  {
  }

  lemma InStepMeans<K(!new)>(
    p: Problem, keys: seq<K>, name: seq<nat>, start: Scan, items: seq<Item>, quotes: map<(K, int), Option<int>>,
    reported: set<(K, K)>, best: Best, log: seq<Diagnostic>)
    requires InStep(p, keys, name, start, items, quotes, reported, best, log)
    ensures |name| == |p.routes| && ItemsFit(p, items)
    ensures best == ScanAll(p, name, start, items).best && log == ScanAll(p, name, start, items).log
  {
    hide ScanAll;
  }

  lemma OneMoreItem(p: Problem, name: seq<nat>, s: Scan, items: seq<Item>, it: Item)
    requires ItemsFit(p, items) && |name| == |p.routes| && it.i < it.j < |p.routes|
    ensures ItemsFit(p, items + [it])
    ensures ScanAll(p, name, s, items + [it]) == ScanItem(p, name, ScanAll(p, name, s, items), it)
  {
    hide ScanItem;
    assert (items + [it])[..|items|] == items;
  }

  /** Weighing a trial does not touch the caches. */
  lemma ConsiderLeavesCaches(p: Problem, s: Scan, t: Trial, predicted: Option<int>)
    requires t.first < |p.routes| && t.second < |p.routes|
    ensures Consider(p, s, t, predicted).quoted == s.quoted && Consider(p, s, t, predicted).conflicts == s.conflicts
  {
    hide Propose;
  }

  lemma NewReport<K(!new)>(p: Problem, keys: seq<K>, name: seq<nat>, reported: set<(K, K)>, s: Scan, i: nat, j: nat)
    requires Keyed(p, keys, name) && i < |keys| && j < |keys| && ReportsMatch(keys, name, reported, s)
    ensures ReportsMatch(keys, name, reported + {(keys[i], keys[j])},
      s.(conflicts := s.conflicts + {(name[i], name[j])}))
  {
  }
}
