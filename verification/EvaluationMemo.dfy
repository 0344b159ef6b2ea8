/** The least-recently-used memo of plan evaluations. */
module EvaluationCache {
  import opened Market
  import opened Evaluator
  import opened RecencyLists

  /** What the memo is keyed on: the evaluator reads nothing else of a plan. */
  datatype Key = Key(request: Request, steps: seq<Step>)

  function KeyOf(plan: Plan): Key {
    Key(plan.request, plan.steps)
  }

  lemma EvaluationKeepsPlan(venue: Venue, plan: Plan, states: seq<PoolState>)
    ensures Evaluate(venue, plan, states).plan == plan
  {
  }

  /** Solver name and search info pass through an evaluation untouched. */
  lemma ProvenanceIsIgnored(venue: Venue, plan: Plan, other: Plan, states: seq<PoolState>)
    requires KeyOf(plan) == KeyOf(other)
    ensures Evaluate(venue, plan, states) == Evaluate(venue, other, states).(plan := plan)
  {
    hide Execute;
  }

  // ---------------------------------------------------------------- the memo object

  /** `EvaluationMemo`: an ordered dictionary as its key order and its table. */
  class EvaluationMemo<K(==, !new), V> {
    const maxsize: int
    var order: seq<K>
    var values: map<K, V>
    var hits: nat
    var misses: nat
    ghost var uses: seq<K>

    constructor (maxsize: int)
      ensures this.maxsize == maxsize && Valid() && uses == [] && values == map[] && hits == misses == 0
    {
      this.maxsize := maxsize;
      order, values, uses := [], map[], [];
      hits, misses := 0, 0;
    }

    ghost function Window(): nat {
      if maxsize < 0 then 0 else maxsize
    }

    /** The memo holds exactly the most recently used keys, in recency order. */
    ghost predicate Valid()
      reads this
    {
      && order == Last(Recency(uses), Window())
      && (forall k :: k in values <==> k in order)
    }

    method Get(key: K) returns (r: Option<V>)
      requires Valid()
      modifies this
      ensures Valid() && values == old(values)
      ensures r == if key in values then Some(values[key]) else None
      ensures uses == if r.Some? then old(uses) + [key] else old(uses)
      ensures hits == old(hits) + (if r.Some? then 1 else 0) && misses == old(misses) + (if r.None? then 1 else 0)
    {
      hide Recency, Without, Last;
      if key !in values {
        misses := misses + 1;
        return None;
      }
      Touched(uses, key, Window());
      order := Without(order, key) + [key];
      uses := uses + [key];
      hits := hits + 1;
      r := Some(values[key]);
    }

    method Put(key: K, value: V)
      requires Valid()
      modifies this
      ensures Valid() && uses == old(uses) + [key]
      ensures forall k :: k in values ==>
        (k == key && values[k] == value) || (k in old(values) && values[k] == old(values)[k])
      ensures hits == old(hits) && misses == old(misses)
    {
      hide Recency, Without, Last;
      Touched(uses, key, Window());
      values := values[key := value];
      order := Without(order, key) + [key];
      uses := uses + [key];
      if |order| > maxsize {
        values := values - {order[0]};
        order := order[1..];
      }
    }
  }

  // ---------------------------------------------------------------- memoised evaluation

  /** What a caller passes for the states: some iterable of live objects, perhaps a tuple. */
  datatype Passed = Passed(objects: seq<Object>, isTuple: bool)

  function IdsOf(objects: seq<Object>): (ids: seq<int>)
    ensures |ids| == |objects| && forall i :: 0 <= i < |objects| ==> ids[i] == objects[i].id
  {
    seq(|objects|, i requires 0 <= i < |objects| => objects[i].id)
  }

  function StatesOf(objects: seq<Object>): (states: seq<PoolState>)
    ensures |states| == |objects| && forall i :: 0 <= i < |objects| ==> states[i] == objects[i].state
  {
    seq(|objects|, i requires 0 <= i < |objects| => objects[i].state)
  }

  /** The guard of the patched `evaluate`: a tuple with the prepared states' ids in their order. */
  predicate Matches(universe: seq<int>, passed: Passed) {
    passed.isTuple && IdsOf(passed.objects) == universe
  }

  /** While the prepared states are alive their ids are theirs alone, so the guard admits exactly tuples of them. */
  lemma MatchedTupleIsPrepared(prepared: seq<Object>, passed: Passed)
    requires forall o :: o in passed.objects ==> OwnAddress(prepared, o)
    ensures Matches(IdsOf(prepared), passed) <==> passed.isTuple && passed.objects == prepared
  {
    if Matches(IdsOf(prepared), passed) {
      forall i | 0 <= i < |prepared| ensures passed.objects[i] == prepared[i] {
        assert IdsOf(passed.objects)[i] == IdsOf(prepared)[i];
        assert passed.objects[i] in passed.objects && prepared[i] in prepared;
      }
    }
  }

  class MemoisedEvaluator {
    const venue: Venue
    ghost const prepared: seq<Object>
    const universe: seq<int>
    const memo: EvaluationMemo<Key, Evaluation>

    constructor (venue: Venue, prepared: seq<Object>, maxsize: int)
      ensures this.venue == venue && this.prepared == prepared && fresh(memo) && memo.maxsize == maxsize && Valid()
      ensures memo.uses == []
    {
      this.venue, this.prepared, universe := venue, prepared, IdsOf(prepared);
      memo := new EvaluationMemo(maxsize);
    }

    ghost predicate Valid()
      reads memo
    {
      && memo.Valid() && universe == IdsOf(prepared)
      && forall k :: k in memo.values ==>
        KeyOf(memo.values[k].plan) == k && memo.values[k] == Evaluate(venue, memo.values[k].plan, StatesOf(prepared))
    }

    /** The patched `evaluate`; what does not match the prepared tuple goes past the memo. */
    method EvaluateMemo(plan: Plan, passed: Passed) returns (e: Evaluation)
      requires Valid() && forall o :: o in passed.objects ==> OwnAddress(prepared, o)
      modifies memo
      ensures Valid()
      ensures e == Evaluate(venue, plan, StatesOf(passed.objects)) && e.plan == plan
      ensures memo.uses ==
        if passed.isTuple && passed.objects == prepared then old(memo.uses) + [KeyOf(plan)] else old(memo.uses)
    {
      hide Evaluate, KeyOf, Matches;
      var states := StatesOf(passed.objects);
      EvaluationKeepsPlan(venue, plan, states);
      MatchedTupleIsPrepared(prepared, passed);
      if !Matches(universe, passed) {
        e := EvaluatePlan(venue, plan, states);
        return;
      }
      var cached := memo.Get(KeyOf(plan));
      if cached.Some? {
        ProvenanceIsIgnored(venue, plan, cached.value.plan, states);
        return cached.value.(plan := plan);
      }
      e := EvaluatePlan(venue, plan, states);
      memo.Put(KeyOf(plan), e);
    }
  }

  /** The keys of the calls that pass the prepared tuple, in order. */
  ghost function MemoisedKeys(prepared: seq<Object>, calls: seq<(Plan, Passed)>): seq<Key> {
    if calls == [] then []
    else
      var (plan, passed) := calls[|calls| - 1];
      MemoisedKeys(prepared, calls[..|calls| - 1])
        + if passed.isTuple && passed.objects == prepared then [KeyOf(plan)] else []
  }

  /** Any sequence of evaluations, on the prepared tuple or on anything else, with any memo size, gives what direct
      evaluation gives, each with its own plan; and the memo ends up holding the most recent distinct keys. */
  method EvaluateAll(venue: Venue, prepared: seq<Object>, calls: seq<(Plan, Passed)>, maxsize: int)
    returns (es: seq<Evaluation>, kept: seq<Key>)
    requires forall c :: c in calls ==> forall o :: o in c.1.objects ==> OwnAddress(prepared, o)
    ensures |es| == |calls| && forall i :: 0 <= i < |calls| ==>
      es[i] == Evaluate(venue, calls[i].0, StatesOf(calls[i].1.objects)) && es[i].plan == calls[i].0
    ensures kept == Last(Recency(MemoisedKeys(prepared, calls)), if maxsize < 0 then 0 else maxsize)
  {
    hide Evaluate, Recency, Last;
    var evaluator := new MemoisedEvaluator(venue, prepared, maxsize);
    es := [];
    for i := 0 to |calls|
      invariant |es| == i && fresh(evaluator) && fresh(evaluator.memo) && evaluator.Valid()
      invariant evaluator.memo.uses == MemoisedKeys(prepared, calls[..i]) && evaluator.memo.maxsize == maxsize
      invariant evaluator.venue == venue && evaluator.prepared == prepared
      invariant forall j :: 0 <= j < i ==>
        es[j] == Evaluate(venue, calls[j].0, StatesOf(calls[j].1.objects)) && es[j].plan == calls[j].0
    {
      assert calls[..i + 1][..i] == calls[..i];
      assert calls[i] in calls;
      var e := evaluator.EvaluateMemo(calls[i].0, calls[i].1);
      es := es + [e];
    }
    assert calls[..|calls|] == calls;
    kept := evaluator.memo.order;
  }
}
