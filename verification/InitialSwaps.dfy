/** The memo for swaps on the prepared states only, keyed by object address; failures are not kept. */
module InitialSwaps {
  import opened Market
  import opened SwapMemos

  datatype SwapKey = SwapKey(id: int, tokenIn: Address, tokenOut: Address, amount: int)

  /** A call on a state; `patched` says that its class is one of the two with a replaced `swap`. */
  datatype SwapCall = SwapCall(on: Object, patched: bool, tokenIn: Address, tokenOut: Address, amount: int)

  function Plainly(venue: Venue, c: SwapCall): SwapResult {
    venue.swap(c.on.state, c.tokenIn, c.tokenOut, c.amount)
  }

  /** A call whose result the memo would keep. */
  ghost predicate Kept(venue: Venue, initial: seq<Object>, c: SwapCall) {
    c.patched && c.on in initial && Plainly(venue, c).Swapped?
  }

  class InitialSwapMemo {
    const venue: Venue
    ghost const initial: seq<Object>
    const allowed: set<int>
    const memo: SwapMemo<SwapKey, SwapResult>

    constructor (venue: Venue, initial: seq<Object>, maxsize: int)
      requires forall o :: o in initial ==> OwnAddress(initial, o)
      ensures this.venue == venue && this.initial == initial && fresh(memo) && memo.maxsize == maxsize
      ensures Valid() && memo.values == map[]
    {
      this.venue, this.initial := venue, initial;
      this.allowed := set o | o in initial :: o.id;
      this.memo := new SwapMemo(maxsize);
    }

    /** Every entry is the successful swap of the prepared state at its address. */
    ghost predicate Valid()
      reads memo
    {
      && memo.Valid()
      && (forall id :: id in allowed <==> exists o :: o in initial && o.id == id)
      && (forall o :: o in initial ==> OwnAddress(initial, o))
      && forall k :: k in memo.values ==> Fits(k)
    }

    ghost predicate Fits(k: SwapKey)
      reads memo
      requires k in memo.values
    {
      && memo.values[k].Swapped?
      && exists o :: o in initial && o.id == k.id
           && memo.values[k] == Plainly(venue, SwapCall(o, true, k.tokenIn, k.tokenOut, k.amount))
    }

    /** `swap`, replaced or not; `crashed` is the IndexError of a memo without capacity, where there is no result. */
    method Swap(c: SwapCall) returns (crashed: bool, r: SwapResult)
      requires Valid() && OwnAddress(initial, c.on)
      modifies memo
      ensures Valid()
      ensures r == Plainly(venue, c)
      ensures crashed ==> memo.maxsize == 0
      ensures memo.maxsize == 0 && old(memo.values) == map[] ==> (crashed <==> Kept(venue, initial, c))
      ensures crashed ==> memo.values == old(memo.values)
      ensures memo.maxsize == 0 && old(memo.values) == map[] ==> memo.values == map[]
    {
      crashed := false;
      if !c.patched || c.on.id !in allowed {
        r := Plainly(venue, c);
        return;
      }
      ghost var o :| o in initial && o.id == c.on.id;
      var key := SwapKey(c.on.id, c.tokenIn, c.tokenOut, c.amount);
      var cached := memo.Get(key);
      if cached.Some? {
        assert Fits(key);
        return false, cached.value;
      }
      r := Plainly(venue, c);
      if r.Swapped? {
        var ok := memo.Put(key, r);
        crashed := !ok;
      }
    }
  }

  /** Any calls, on prepared states or others: the results of plain swaps, unless the memo has no room at all. */
  method RunSwaps(venue: Venue, initial: seq<Object>, maxsize: int, calls: seq<SwapCall>)
    returns (crashed: bool, results: seq<SwapResult>)
    requires forall o :: o in initial ==> OwnAddress(initial, o)
    requires forall c :: c in calls ==> OwnAddress(initial, c.on)
    ensures crashed <==> maxsize == 0 && exists c :: c in calls && Kept(venue, initial, c)
    ensures !crashed ==> |results| == |calls| && forall i :: 0 <= i < |calls| ==> results[i] == Plainly(venue, calls[i])
  {
    var scope := new InitialSwapMemo(venue, initial, maxsize);
    results := [];
    for i := 0 to |calls|
      invariant scope.Valid() && fresh(scope.memo) && scope.venue == venue && scope.initial == initial
        && scope.memo.maxsize == maxsize
      invariant |results| == i && forall j :: 0 <= j < i ==> results[j] == Plainly(venue, calls[j])
      invariant maxsize == 0 ==> scope.memo.values == map[]
      invariant maxsize == 0 ==> forall j :: 0 <= j < i ==> !Kept(venue, initial, calls[j])
    {
      assert calls[i] in calls;
      var failed, r := scope.Swap(calls[i]);
      if failed {
        return true, results;
      }
      results := results + [r];
    }
    crashed := false;
    assert maxsize == 0 ==> forall c :: c in calls ==> !Kept(venue, initial, c);
  }
}
