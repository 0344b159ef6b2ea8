/** Which pairs of routes may be quoted separately: the baseline's static classification of shared capacity. */
module Capacity {
  import opened Market
  import opened Evaluator
  import opened Routes

  datatype Relation = Overlapping | Conflicting | Independent

  ghost predicate ClaimedBy(hops: seq<RouteHop>, states: map<PoolId, PoolState>, capacity: string, owner: PoolId) {
    exists h :: h in hops && h.poolId == owner && Claims(states, owner, capacity)
  }

  /** The route uses an unknown pool, or two of its pools draw on one capacity. */
  predicate Broken(route: Route, states: map<PoolId, PoolState>) {
    || (exists h :: h in route.hops && h.poolId !in states)
    || exists h :: h in route.hops && exists k :: k in route.hops && Clash(states, h.poolId, k.poolId)
  }

  predicate CrossClash(first: Route, second: Route, states: map<PoolId, PoolState>) {
    exists h :: h in first.hops && exists k :: k in second.hops && Clash(states, h.poolId, k.poolId)
  }

  function RelationOf(first: Route, second: Route, states: map<PoolId, PoolState>): Relation {
    if Overlap(first, second) then Overlapping
    else if Broken(first, states) || Broken(second, states) || CrossClash(first, second, states) then Conflicting
    else Independent
  }

  /** An owner table lists exactly the claims of an executable route. */
  ghost predicate Owns(route: Route, states: map<PoolId, PoolState>, owners: Option<map<string, PoolId>>) {
    && (owners.None? <==> Broken(route, states))
    && (owners.Some? ==> forall c, p ::
         ClaimedBy(route.hops, states, c, p) <==> c in owners.value && owners.value[c] == p)
  }

  /** `_capacity_owners`: who draws on what, or None where the route cannot be executed at all. */
  method CapacityOwners(route: Route, states: map<PoolId, PoolState>) returns (owners: Option<map<string, PoolId>>)
    ensures Owns(route, states, owners)
  {
    hide ClaimedBy, Broken, Clash;
    var found: map<string, PoolId> := map[];
    for i := 0 to |route.hops|
      invariant forall j :: 0 <= j < i ==> route.hops[j].poolId in states
      invariant AllClaimed(route.hops[..i], states, found)
      invariant forall j, c :: 0 <= j < i && Claims(states, route.hops[j].poolId, c) ==>
        c in found && found[c] == route.hops[j].poolId
    {
      var id := route.hops[i].poolId;
      if id !in states {
        UnknownBreaks(route, states, i);
        return None;
      }
      var claimed := ClaimAll(found, id, states[id].capacityIds);
      if claimed.None? {
        TakenClaimBreaks(route, states, found, i);
        return None;
      }
      ClaimsStayOwned(route, states, found, claimed.value, i);
      found := claimed.value;
    }
    assert route.hops[..|route.hops|] == route.hops;
    OwnersAreClear(route, states, found);
    assert Owns(route, states, Some(found));
    owners := Some(found);
  }

  /** Every owner in the table claims what it owns. */
  ghost predicate AllClaimed(hops: seq<RouteHop>, states: map<PoolId, PoolState>, found: map<string, PoolId>) {
    forall c :: c in found ==> ClaimedBy(hops, states, c, found[c])
  }

  lemma UnknownBreaks(route: Route, states: map<PoolId, PoolState>, i: nat)
    requires i < |route.hops| && route.hops[i].poolId !in states
    ensures Broken(route, states)
  {
    assert route.hops[i] in route.hops;
  }

  /** A claim that another pool of the route already owns. */
  lemma TakenClaimBreaks(route: Route, states: map<PoolId, PoolState>, found: map<string, PoolId>, i: nat)
    requires i < |route.hops| && route.hops[i].poolId in states && AllClaimed(route.hops[..i], states, found)
    requires exists c :: c in states[route.hops[i].poolId].capacityIds && c in found && found[c] != route.hops[i].poolId
    ensures Broken(route, states)
  {
    var c :| c in states[route.hops[i].poolId].capacityIds && c in found && found[c] != route.hops[i].poolId;
    assert ClaimedBy(route.hops[..i], states, c, found[c]);
    var h :| h in route.hops[..i] && h.poolId == found[c] && Claims(states, found[c], c);
    assert h in route.hops && route.hops[i] in route.hops && Clash(states, h.poolId, route.hops[i].poolId);
  }

  lemma ClaimsStayOwned(
    route: Route, states: map<PoolId, PoolState>, found: map<string, PoolId>, after: map<string, PoolId>, i: nat)
    requires i < |route.hops| && route.hops[i].poolId in states && AllClaimed(route.hops[..i], states, found)
    requires forall c :: c in after <==> c in found || c in states[route.hops[i].poolId].capacityIds
    requires forall c :: c in after ==> after[c] == if c in found then found[c] else route.hops[i].poolId
    ensures AllClaimed(route.hops[..i + 1], states, after)
  {
    assert route.hops[i] in route.hops[..i + 1];
    forall c | c in after
      ensures ClaimedBy(route.hops[..i + 1], states, c, after[c])
    {
      if c in found {
        assert ClaimedBy(route.hops[..i], states, c, found[c]);
        var h :| h in route.hops[..i] && h.poolId == found[c] && Claims(states, found[c], c);
        assert h in route.hops[..i + 1];
      } else {
        assert Claims(states, route.hops[i].poolId, c);
      }
    }
  }

  lemma OwnersAreClear(route: Route, states: map<PoolId, PoolState>, found: map<string, PoolId>)
    requires forall j :: 0 <= j < |route.hops| ==> route.hops[j].poolId in states
    requires forall j, c :: 0 <= j < |route.hops| && Claims(states, route.hops[j].poolId, c) ==>
      c in found && found[c] == route.hops[j].poolId
    ensures !Broken(route, states)
    ensures forall c, p :: ClaimedBy(route.hops, states, c, p) ==> c in found && found[c] == p
  {
    forall h, k | h in route.hops && k in route.hops
      ensures !Clash(states, h.poolId, k.poolId)
    {
      OneOwnerEach(states, found, h.poolId, k.poolId);
    }
  }

  /** `relation`: the owner tables decide it for routes without a common pool. */
  method Classify(
    first: Route, second: Route, states: map<PoolId, PoolState>, firstOwners: Option<map<string, PoolId>>,
    secondOwners: Option<map<string, PoolId>>) returns (r: Relation)
    requires Owns(first, states, firstOwners) && Owns(second, states, secondOwners)
    ensures r == RelationOf(first, second, states)
  {
    if Overlap(first, second) {
      return Overlapping;
    }
    if firstOwners.None? || secondOwners.None? {
      return Conflicting;
    }
    var a, b := firstOwners.value, secondOwners.value;
    if c :| c in b && c in a && a[c] != b[c] {
      assert ClaimedBy(first.hops, states, c, a[c]) && ClaimedBy(second.hops, states, c, b[c]);
      assert Clash(states, a[c], b[c]);
      return Conflicting;
    }
    forall h, k | h in first.hops && k in second.hops
      ensures !Clash(states, h.poolId, k.poolId)
    {
      if Clash(states, h.poolId, k.poolId) {
        var c :| c in states[h.poolId].capacityIds && c in states[k.poolId].capacityIds;
        assert ClaimedBy(first.hops, states, c, h.poolId) && ClaimedBy(second.hops, states, c, k.poolId);
        assert false;
      }
    }
    r := Independent;
  }

  /** Routes whose pools are all known conflict only by sharing a capacity. */
  lemma ConflictClashes(first: Route, second: Route, pools: map<PoolId, PoolState>)
    requires Broken(first, pools) || Broken(second, pools) || CrossClash(first, second, pools)
    requires forall h :: h in first.hops + second.hops ==> h.poolId in pools
    ensures var all := first.hops + second.hops;
      exists h, k :: h in all && k in all && Clash(pools, h.poolId, k.poolId)
  {
    hide Clash;
    var all := first.hops + second.hops;
    assert forall h :: h in first.hops || h in second.hops ==> h in all;
  }

  lemma SharedIsRejected(venue: Venue, steps: seq<Step>, states: seq<PoolState>, a: PoolId, b: PoolId)
    requires Clash(PoolsById(states), a, b)
    requires (exists i :: 0 <= i < |steps| && steps[i].poolId == a)
      && (exists i :: 0 <= i < |steps| && steps[i].poolId == b)
    ensures forall plan: Plan :: plan.steps == steps ==> !Evaluate(venue, plan, states).feasible
  {
    hide Clash, Conclude, Execute;
    assert SharesCapacity(steps, PoolsById(states));
  }

  /** The compiled plan of a pair visits the pools of both routes, and all of them are known. */
  lemma CompiledPairVisits(
    venue: Venue, first: seq<RouteHop>, second: seq<RouteHop>, firstAmount: int, secondAmount: int,
    pools: map<PoolId, PoolState>)
    requires var a := Compile(venue, first, [], firstAmount, pools);
      a.Compiled? && Compile(venue, second, a.steps, secondAmount, a.current).Compiled?
    ensures var a := Compile(venue, first, [], firstAmount, pools);
      var steps := Compile(venue, second, a.steps, secondAmount, a.current).steps;
      forall h :: h in first + second ==>
        h.poolId in pools && exists i :: 0 <= i < |steps| && steps[i].poolId == h.poolId
  {
    hide Compile;
    var a := Compile(venue, first, [], firstAmount, pools);
    CompileExtends(venue, first, [], firstAmount, pools);
    CompileExtends(venue, second, a.steps, secondAmount, a.current);
    StepsVisit(first, second, a.steps, Compile(venue, second, a.steps, secondAmount, a.current).steps);
    AllKnown(first, second, pools, a.current);
  }

  /** A conflicting pair has no acceptable plan, whatever the amounts. */
  lemma ConflictIsRejected(
    venue: Venue, first: Route, second: Route, firstAmount: int, secondAmount: int, request: Request,
    states: seq<PoolState>)
    requires var pools := PoolsById(states);
      Broken(first, pools) || Broken(second, pools) || CrossClash(first, second, pools)
    ensures Candidate(venue, first, second, firstAmount, secondAmount, request, states).found.None?
  {
    hide Compile, Evaluate, Clash, Broken, CrossClash;
    var pools := PoolsById(states);
    var a := Compile(venue, first.hops, [], firstAmount, pools);
    if a.Compiled? && Compile(venue, second.hops, a.steps, secondAmount, a.current).Compiled? {
      CompiledPairVisits(venue, first.hops, second.hops, firstAmount, secondAmount, pools);
      ConflictClashes(first, second, pools);
      var all := first.hops + second.hops;
      var h, k :| h in all && k in all && Clash(pools, h.poolId, k.poolId);
      SharedIsRejected(venue, Compile(venue, second.hops, a.steps, secondAmount, a.current).steps, states, h.poolId,
        k.poolId);
    }
  }

  lemma AllKnown(
    first: seq<RouteHop>, second: seq<RouteHop>, pools: map<PoolId, PoolState>, current: map<PoolId, PoolState>)
    requires current.Keys == pools.Keys
    requires forall i :: 0 <= i < |first| ==> first[i].poolId in pools
    requires forall i :: 0 <= i < |second| ==> second[i].poolId in current
    ensures forall h :: h in first + second ==> h.poolId in pools
  {
  }

  lemma StepsVisit(first: seq<RouteHop>, second: seq<RouteHop>, a: seq<Step>, b: seq<Step>)
    requires |a| == |first| && |b| == |a| + |second| && b[..|a|] == a
    requires forall i :: 0 <= i < |first| ==> a[0 + i].poolId == first[i].poolId
    requires forall i :: 0 <= i < |second| ==> b[|a| + i].poolId == second[i].poolId
    ensures forall h :: h in first + second ==> exists i :: 0 <= i < |b| && b[i].poolId == h.poolId
  {
    forall h | h in first + second
      ensures exists i :: 0 <= i < |b| && b[i].poolId == h.poolId
    {
      var i :| 0 <= i < |first + second| && (first + second)[i] == h;
      if i < |first| {
        assert b[i] == b[..|a|][i] && a[0 + i].poolId == first[i].poolId;
      } else {
        assert b[|a| + (i - |first|)].poolId == second[i - |first|].poolId;
      }
    }
  }
}
