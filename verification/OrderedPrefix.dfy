/** The memo of first routes: a cached route replays its amount, its state updates or its refusal, and the
    second route still runs on the updated states. */
module OrderedPrefix {
  import opened Market
  import opened Routes

  /** What the first route leaves behind: an amount with the states it changed, or where it stopped. */
  datatype Prefix = Prefix(amount: Option<int>, updates: map<PoolId, PoolState>, failure: Option<Failure>)

  /** `execute_route`, in progress: the pools changed so far are kept beside the running map. */
  datatype Executing =
    | Running(amount: int, current: map<PoolId, PoolState>, updates: map<PoolId, PoolState>)
    | Stopped(failure: Option<Failure>)

  function ExecuteHops(venue: Venue, hops: seq<RouteHop>, amount: int, states: map<PoolId, PoolState>): Executing {
    if hops == [] then Running(amount, states, map[])
    else match ExecuteHops(venue, hops[..|hops| - 1], amount, states)
      case Stopped(f) => Stopped(f)
      case Running(a, current, updates) =>
        var id := hops[|hops| - 1].poolId;
        match QuoteHop(venue, hops[|hops| - 1], a, current)
        case Stuck(f) => Stopped(f)
        case Reached(out, now) => Running(out, now, updates[id := now[id]])
  }

  function PrefixOf(venue: Venue, route: Route, amount: int, states: map<PoolId, PoolState>): Prefix {
    match ExecuteHops(venue, route.hops, amount, states)
    case Stopped(f) => Prefix(None, map[], f)
    case Running(a, _, updates) => Prefix(Some(a), updates, None)
  }

  /** The original states overlaid with the updates are the states after the route, revisited pools included. */
  lemma {:induction false} UpdatesRebuildTheStates(
    venue: Venue, hops: seq<RouteHop>, amount: int, states: map<PoolId, PoolState>)
    ensures match Quote(venue, hops, amount, states)
      case Stuck(f) => ExecuteHops(venue, hops, amount, states) == Stopped(f)
      case Reached(a, current) =>
        var e := ExecuteHops(venue, hops, amount, states);
        e.Running? && e.amount == a && e.current == current && current == states + e.updates
    decreases |hops|
  {
    if hops != [] {
      UpdatesRebuildTheStates(venue, hops[..|hops| - 1], amount, states);
    }
  }

  // ---------------------------------------------------------------- the scope of the memo

  function States(m: map<PoolId, Object>): map<PoolId, PoolState> {
    map id | id in m :: m[id].state
  }

  /** The guard of the wrapped `_best_split`: as many pools as the universe, each with the universe's id. */
  predicate Admits(universe: map<PoolId, int>, m: map<PoolId, Object>) {
    |m| == |universe| && forall id :: id in m ==> id in universe && universe[id] == m[id].id
  }

  function Universe(base: map<PoolId, Object>): map<PoolId, int> {
    map id | id in base :: base[id].id
  }

  lemma {:induction false} SubsetOfEqualSize<T>(a: set<T>, b: set<T>)
    requires a <= b && |a| == |b|
    ensures a == b
  {
    assert |b - a| == |b| - |a|;
  }

  /** While the prepared states are alive their ids are theirs alone, so an admitted map is the prepared one. */
  lemma AdmittedMapIsTheUniverse(base: map<PoolId, Object>, m: map<PoolId, Object>)
    requires OwnIds(base, m)
    ensures Admits(Universe(base), m) <==> m == base
    ensures Admits(Universe(base), m) ==> States(m) == States(base)
  {
    var universe := Universe(base);
    assert universe.Keys == base.Keys && |universe.Keys| == |universe| && |m.Keys| == |m| && |base.Keys| == |base|;
    if Admits(universe, m) {
      SubsetOfEqualSize(m.Keys, base.Keys);
    }
  }

  // ---------------------------------------------------------------- the memo

  datatype Call = Call(first: Route, second: Route, firstAmount: int, secondAmount: int)

  function Plain(venue: Venue, c: Call, states: map<PoolId, PoolState>): Quoted {
    OrderedOutput(venue, c.first, c.second, c.firstAmount, c.secondAmount, states)
  }

  class OrderedPrefixMemo {
    const maxsize: int
    var values: map<(Route, int), Prefix>
    var hits: nat
    var misses: nat

    constructor (maxsize: int)
      ensures this.maxsize == maxsize && values == map[] && hits == misses == 0
    {
      this.maxsize := maxsize;
      values, hits, misses := map[], 0, 0;
    }

    /** Every entry is what the plain execution of its route would leave, and the size stays bounded. */
    ghost predicate Valid(venue: Venue, base: map<PoolId, PoolState>)
      reads this
    {
      && (forall k :: k in values ==> values[k] == PrefixOf(venue, k.0, k.1, base))
      && (values == map[] || |values| <= maxsize)
    }

    method Get(key: (Route, int)) returns (r: Option<Prefix>)
      modifies this`hits, this`misses
      ensures r == if key in values then Some(values[key]) else None
      ensures hits == old(hits) + (if r.Some? then 1 else 0) && misses == old(misses) + (if r.None? then 1 else 0)
    {
      if key !in values {
        misses := misses + 1;
        return None;
      }
      hits := hits + 1;
      r := Some(values[key]);
    }

    method Put(key: (Route, int), value: Prefix)
      modifies this`values
      ensures values == if |old(values)| < maxsize then old(values)[key := value] else old(values)
    {
      if |values| < maxsize {
        values := values[key := value];
      }
    }
  }

  /** A dictionary of live states, as an object with an identity of its own. */
  datatype Dict = Dict(id: int, entries: map<PoolId, Object>)

  /** The prepared states are alive, so their ids are theirs alone. */
  ghost predicate OwnIds(base: map<PoolId, Object>, m: map<PoolId, Object>) {
    forall id, jd :: id in base && jd in m && base[id].id == m[jd].id ==> base[id] == m[jd]
  }

  /** The scope of the patch: the memo, and the dictionaries of the `_best_split` calls in progress. */
  class PrefixScope {
    const venue: Venue
    ghost const base: map<PoolId, Object>
    const universe: map<PoolId, int>
    const memo: OrderedPrefixMemo
    var allowedMaps: seq<Dict>

    constructor (venue: Venue, base: map<PoolId, Object>, maxsize: int)
      ensures this.venue == venue && this.base == base && allowedMaps == [] && fresh(memo)
      ensures Valid() && memo.maxsize == maxsize
    {
      this.venue, this.base, universe := venue, base, Universe(base);
      allowedMaps := [];
      memo := new OrderedPrefixMemo(maxsize);
    }

    /** Only dictionaries of the prepared states are ever allowed, and every memo entry is about those states. */
    ghost predicate Valid()
      reads this, memo
    {
      && universe == Universe(base) && memo.Valid(venue, States(base))
      && forall d :: d in allowedMaps ==> d.entries == base
    }

    /** A dictionary that is alive beside the one allowed last has an identity of its own. */
    ghost predicate OwnIdentity(d: Dict)
      reads this
    {
      allowedMaps != [] && allowedMaps[|allowedMaps| - 1].id == d.id ==> allowedMaps[|allowedMaps| - 1] == d
    }

    /** On entry to the patched `_best_split` its dictionary is allowed, if it is that of the prepared states. */
    method Enter(dict: Dict) returns (admitted: bool)
      requires Valid() && allowedMaps == [] && OwnIds(base, dict.entries)
      modifies this`allowedMaps
      ensures Valid() && (admitted <==> dict.entries == base) && allowedMaps == if admitted then [dict] else []
    {
      AdmittedMapIsTheUniverse(base, dict.entries);
      admitted := Admits(universe, dict.entries);
      if admitted {
        allowedMaps := allowedMaps + [dict];
      }
    }

    /** On the way out the dictionary is taken off again. */
    method Leave(admitted: bool)
      requires Valid() && |allowedMaps| == if admitted then 1 else 0
      modifies this`allowedMaps
      ensures Valid() && allowedMaps == []
    {
      if admitted {
        allowedMaps := allowedMaps[..|allowedMaps| - 1];
      }
    }

    /** `execute_route` hop by hop. */
    method ExecuteRoute(route: Route, amount: int, states: map<PoolId, PoolState>) returns (r: Prefix)
      ensures r == PrefixOf(venue, route, amount, states)
    {
      var a, current := amount, states;
      var updates: map<PoolId, PoolState> := map[];
      var i := 0;
      while i < |route.hops|
        invariant 0 <= i <= |route.hops|
        invariant ExecuteHops(venue, route.hops[..i], amount, states) == Running(a, current, updates)
      {
        var hop := route.hops[i];
        assert route.hops[..i + 1][..i] == route.hops[..i];
        match QuoteHop(venue, hop, a, current) {
          case Stuck(f) =>
            StopSticks(venue, route.hops, amount, states, i + 1);
            return Prefix(None, map[], f);
          case Reached(out, now) =>
            a, current := out, now;
            updates := updates[hop.poolId := now[hop.poolId]];
        }
        i := i + 1;
      }
      assert route.hops[..|route.hops|] == route.hops;
      r := Prefix(Some(a), updates, None);
    }

    /** The patched `_ordered_output`: the memo serves only the dictionary allowed last, told by its identity. */
    method OrderedOutputMemo(c: Call, dict: Dict) returns (q: Quoted)
      requires Valid() && OwnIdentity(dict)
      modifies memo
      ensures Valid() && q == Plain(venue, c, States(dict.entries))
    {
      hide Plain, States, Universe, PrefixOf;
      if allowedMaps == [] || allowedMaps[|allowedMaps| - 1].id != dict.id {
        return Plain(venue, c, States(dict.entries));
      }
      assert dict.entries == base;
      q := MemoisedOutput(c, States(dict.entries));
    }

    /** The first route, from the memo or executed. */
    method FirstRoute(route: Route, amount: int, states: map<PoolId, PoolState>) returns (prefix: Prefix)
      requires Valid() && states == States(base)
      modifies memo
      ensures Valid() && prefix == PrefixOf(venue, route, amount, states)
    {
      hide States, Universe, PrefixOf;
      var cached := memo.Get((route, amount));
      if cached.Some? {
        return cached.value;
      }
      prefix := ExecuteRoute(route, amount, states);
      memo.Put((route, amount), prefix);
    }

    /** Below the guard: the first route from the memo or executed, then the second route on the updated states. */
    method MemoisedOutput(c: Call, states: map<PoolId, PoolState>) returns (q: Quoted)
      requires Valid() && states == States(base)
      modifies memo
      ensures Valid() && q == Plain(venue, c, states)
    {
      hide States, Universe, Plain, PrefixOf, Report, OrderedPrefixMemo.Valid;
      PrefixIsPlain(venue, c, states);
      var prefix := FirstRoute(c.first, c.firstAmount, states);
      if prefix.failure.Some? {
        return Quoted(None, Report(c.first, prefix.failure));
      }
      if prefix.amount.None? {
        return Quoted(None, []);
      }
      var rest := ExecuteRoute(c.second, c.secondAmount, states + prefix.updates);
      if rest.failure.Some? {
        return Quoted(None, Report(c.second, rest.failure));
      }
      q := Quoted(if rest.amount.None? then None else Some(prefix.amount.value + rest.amount.value), []);
    }

    /** The patched `_best_split` around any ordered quotes, on its own dictionary or on others. */
    method BestSplit(split: Split) returns (outs: seq<Option<int>>, log: seq<Diagnostic>)
      requires Valid() && allowedMaps == [] && OwnIds(base, split.dict.entries)
      requires forall r :: r in split.quotes && r.dict.id == split.dict.id ==> r.dict == split.dict
      modifies this, memo
      ensures Valid() && allowedMaps == []
      ensures (outs, log) == PlainRun(venue, split.quotes)
    {
      hide States, Universe, PlainRun, OrderedPrefixMemo.Valid;
      var admitted := Enter(split.dict);
      NoQuotes(venue);
      outs, log := [], [];
      for i := 0 to |split.quotes|
        invariant Valid() && allowedMaps == if admitted then [split.dict] else []
        invariant (outs, log) == PlainRun(venue, split.quotes[..i])
      {
        assert split.quotes[i] in split.quotes;
        OneMoreQuote(venue, split.quotes, i);
        var q := OrderedOutputMemo(split.quotes[i].call, split.quotes[i].dict);
        outs, log := outs + [q.amount], log + q.log;
      }
      assert split.quotes[..|split.quotes|] == split.quotes;
      Leave(admitted);
    }
  }

  /** What the memoised steps come to is plain execution. */
  lemma PrefixIsPlain(venue: Venue, c: Call, states: map<PoolId, PoolState>)
    ensures var prefix := PrefixOf(venue, c.first, c.firstAmount, states);
      var rest := PrefixOf(venue, c.second, c.secondAmount, states + prefix.updates);
      Plain(venue, c, states) ==
        if prefix.failure.Some? then Quoted(None, Report(c.first, prefix.failure))
        else if prefix.amount.None? then Quoted(None, [])
        else if rest.failure.Some? then Quoted(None, Report(c.second, rest.failure))
        else Quoted(if rest.amount.None? then None else Some(prefix.amount.value + rest.amount.value), [])
  {
    hide ExecuteHops, Quote;
    UpdatesRebuildTheStates(venue, c.first.hops, c.firstAmount, states);
    var after := states + PrefixOf(venue, c.first, c.firstAmount, states).updates;
    UpdatesRebuildTheStates(venue, c.second.hops, c.secondAmount, after);
  }

  lemma {:induction false} StopSticks(
    venue: Venue, hops: seq<RouteHop>, amount: int, states: map<PoolId, PoolState>, n: nat)
    requires n <= |hops| && ExecuteHops(venue, hops[..n], amount, states).Stopped?
    ensures ExecuteHops(venue, hops, amount, states) == ExecuteHops(venue, hops[..n], amount, states)
    decreases |hops|
  {
    if n < |hops| {
      assert hops[..|hops| - 1][..n] == hops[..n];
      StopSticks(venue, hops[..|hops| - 1], amount, states, n);
    } else {
      assert hops[..n] == hops;
    }
  }

  // ---------------------------------------------------------------- whole runs

  /** An ordered quote on some dictionary. */
  datatype OrderedQuote = OrderedQuote(call: Call, dict: Dict)

  /** One `_best_split` call: its dictionary, and the ordered quotes made while it runs. */
  datatype Split = Split(dict: Dict, quotes: seq<OrderedQuote>)

  /** Running every quote hop by hop on a fresh copy of its dictionary's states. */
  function PlainRun(venue: Venue, quotes: seq<OrderedQuote>): (r: (seq<Option<int>>, seq<Diagnostic>)) {
    if quotes == [] then ([], [])
    else
      var (outs, log) := PlainRun(venue, quotes[..|quotes| - 1]);
      var last := quotes[|quotes| - 1];
      var q := Plain(venue, last.call, States(last.dict.entries));
      (outs + [q.amount], log + q.log)
  }

  lemma NoQuotes(venue: Venue)
    ensures PlainRun(venue, []) == ([], [])
  {
  }

  lemma OneMoreQuote(venue: Venue, quotes: seq<OrderedQuote>, i: nat)
    requires i < |quotes|
    ensures var q := Plain(venue, quotes[i].call, States(quotes[i].dict.entries));
      PlainRun(venue, quotes[..i + 1]) ==
        (PlainRun(venue, quotes[..i]).0 + [q.amount], PlainRun(venue, quotes[..i]).1 + q.log)
  {
    hide Plain, States;
    assert quotes[..i + 1][..i] == quotes[..i];
  }

  /** All the quotes of a run, in order. */
  function AllQuotes(splits: seq<Split>): seq<OrderedQuote> {
    if splits == [] then [] else AllQuotes(splits[..|splits| - 1]) + splits[|splits| - 1].quotes
  }

  lemma {:induction false} RunsConcatenate(venue: Venue, a: seq<OrderedQuote>, b: seq<OrderedQuote>)
    ensures PlainRun(venue, a + b) ==
      (PlainRun(venue, a).0 + PlainRun(venue, b).0, PlainRun(venue, a).1 + PlainRun(venue, b).1)
  {
    hide Plain, States, PlainRun;
    if b == [] {
      NoQuotes(venue);
      var x := PlainRun(venue, a);
      assert a + b == a && x.0 + [] == x.0 && x.1 + [] == x.1;
    } else {
      var front, n := b[..|b| - 1], |b| - 1;
      RunsConcatenate(venue, a, front);
      assert (a + b)[..|a| + n] == a + front && (a + b)[..|a| + n + 1] == a + b && b[..n + 1] == b;
      OneMoreQuote(venue, a + b, |a| + n);
      OneMoreQuote(venue, b, n);
      var x, y := PlainRun(venue, a), PlainRun(venue, front);
      var q := Plain(venue, b[n].call, States(b[n].dict.entries));
      assert (a + b)[|a| + n] == b[n] && b[..n] == front;
      assert x.0 + y.0 + [q.amount] == x.0 + (y.0 + [q.amount]) && x.1 + y.1 + q.log == x.1 + (y.1 + q.log);
    }
  }

  /** Any run of `_best_split` calls in one scope, on the prepared states or on others, with any memo size, gives the
      amounts and diagnostics of plain execution. */
  method RunSplits(venue: Venue, base: map<PoolId, Object>, maxsize: int, splits: seq<Split>)
    returns (outs: seq<Option<int>>, log: seq<Diagnostic>)
    requires forall s :: s in splits ==> OwnIds(base, s.dict.entries)
    requires forall s :: s in splits ==> forall r :: r in s.quotes && r.dict.id == s.dict.id ==> r.dict == s.dict
    ensures (outs, log) == PlainRun(venue, AllQuotes(splits))
  {
    hide PlainRun, States, Universe, OrderedPrefixMemo.Valid, OwnIds;
    var scope := new PrefixScope(venue, base, maxsize);
    NoQuotes(venue);
    outs, log := [], [];
    for i := 0 to |splits|
      invariant fresh(scope) && fresh(scope.memo) && scope.Valid() && scope.allowedMaps == []
      invariant scope.venue == venue && scope.base == base
      invariant (outs, log) == PlainRun(venue, AllQuotes(splits[..i]))
    {
      assert splits[..i + 1][..i] == splits[..i];
      assert splits[i] in splits;
      var more, lines := scope.BestSplit(splits[i]);
      RunsConcatenate(venue, AllQuotes(splits[..i]), splits[i].quotes);
      outs, log := outs + more, log + lines;
    }
    assert splits[..|splits|] == splits;
  }
}
