/** Matching the responses of a JSON-RPC batch with its requests, and jobs with the slots their workers fill. */
module BatchMatches {
  import opened Lists
  import opened Market

  /** An id: an integer (a JSON `true` counts as 1). */
  type Id(==, !new, 0)

  type Payload(==, !new, 0)

  /** A response object: the id when it is an integer, and which of the two members it carries. */
  datatype Response = Response(id: Id, hasResult: bool, hasError: bool, payload: Payload)

  /** An element of the body: an object with an integer id, or something else. */
  datatype Item = Item(response: Response) | Malformed

  datatype Body = Batch(items: seq<Item>) | NotAList

  datatype Failure =
    | BodyIsNotAList
    | InvalidId
    | DuplicatedId(id: Id)
    | UnexpectedId(id: Id)
    | ErrorFor(id: Id)
    | OmittedResult(id: Id)
    | OmittedIds(ids: set<Id>)

  datatype Outcome = Matched(responses: seq<Response>) | Failed(failure: Failure)

  predicate Good(r: Response) { r.hasResult && !r.hasError }

  ghost predicate AllGood(items: seq<Item>) {
    forall i :: 0 <= i < |items| ==> items[i].Item? && Good(items[i].response)
  }

  ghost function Ids(items: seq<Item>): (ids: seq<Id>)
    requires AllGood(items)
    ensures |ids| == |items| && forall i :: 0 <= i < |items| ==> ids[i] == items[i].response.id
  {
    seq(|items|, i requires 0 <= i < |items| => items[i].response.id)
  }

  /** Every item is a response with a result and no error, and together they answer each id exactly once. */
  ghost predicate Answers(items: seq<Item>, ids: seq<Id>) {
    && AllGood(items)
    && multiset(Ids(items)) == multiset(ids)
  }

  /** The responses found so far by id, or the first problem met. */
  datatype Scan = Found(byId: map<Id, Response>) | Stopped(failure: Failure)

  function Check(item: Item, expected: set<Id>, byId: map<Id, Response>): Scan {
    match item
    case Malformed => Stopped(InvalidId)
    case Item(r) =>
      if r.id in byId then Stopped(DuplicatedId(r.id))
      else if r.id !in expected then Stopped(UnexpectedId(r.id))
      else if r.hasError then Stopped(ErrorFor(r.id))
      else if !r.hasResult then Stopped(OmittedResult(r.id))
      else Found(byId[r.id := r])
  }

  function Scanned(items: seq<Item>, expected: set<Id>): Scan {
    if items == [] then Found(map[])
    else
      var earlier := Scanned(items[..|items| - 1], expected);
      if earlier.Stopped? then earlier else Check(items[|items| - 1], expected, earlier.byId)
  }

  function IdSet(ids: seq<Id>): (r: set<Id>)
    ensures forall x :: x in r <==> x in ids
  {
    set x | x in ids
  }

  lemma NothingMissing(expected: set<Id>, found: map<Id, Response>)
    ensures expected - found.Keys == {} <==> forall id :: id in expected ==> id in found
  {
    forall id | id in expected ensures id in found || id in expected - found.Keys {
    }
  }

  ghost function Matching(ids: seq<Id>, body: Body): Outcome {
    if body.NotAList? then Failed(BodyIsNotAList)
    else
      var scan := Scanned(body.items, IdSet(ids));
      if scan.Stopped? then Failed(scan.failure)
      else if IdSet(ids) - scan.byId.Keys != {} then Failed(OmittedIds(IdSet(ids) - scan.byId.Keys))
      else
        NothingMissing(IdSet(ids), scan.byId);
        assert forall i :: 0 <= i < |ids| ==> ids[i] in IdSet(ids);
        Matched(seq(|ids|, i requires 0 <= i < |ids| => scan.byId[ids[i]]))
  }

  method MatchBatch(ids: seq<Id>, body: Body) returns (outcome: Outcome)
    ensures outcome == Matching(ids, body)
  {
    if body.NotAList? {
      return Failed(BodyIsNotAList);
    }
    var items := body.items;
    var expected := IdSet(ids);
    var found: map<Id, Response> := map[];
    for i := 0 to |items|
      invariant Scanned(items[..i], expected) == Found(found)
    {
      assert items[..i + 1][..i] == items[..i];
      match Check(items[i], expected, found)
      case Stopped(failure) =>
        StoppingSticks(items, expected, i + 1);
        return Failed(failure);
      case Found(byId) =>
        found := byId;
    }
    assert items[..|items|] == items;
    var missing := expected - found.Keys;
    if missing != {} {
      return Failed(OmittedIds(missing));
    }
    NothingMissing(expected, found);
    assert forall i :: 0 <= i < |ids| ==> ids[i] in expected;
    outcome := Matched(seq(|ids|, i requires 0 <= i < |ids| => found[ids[i]]));
  }

  lemma {:induction false} StoppingSticks(items: seq<Item>, expected: set<Id>, n: nat)
    requires n <= |items| && Scanned(items[..n], expected).Stopped?
    ensures Scanned(items, expected) == Scanned(items[..n], expected)
    decreases |items|
  {
    if n == |items| {
      assert items[..n] == items;
    } else {
      var shorter := items[..|items| - 1];
      assert shorter[..n] == items[..n];
      StoppingSticks(shorter, expected, n);
    }
  }

  // ---------------------------------------------------------------- what is accepted

  /** Every item is good, asked for and not a repeat. */
  ghost predicate Fits(items: seq<Item>, expected: set<Id>) {
    && AllGood(items)
    && Distinct(Ids(items))
    && forall id :: id in Ids(items) ==> id in expected
  }

  ghost predicate Holds(items: seq<Item>, byId: map<Id, Response>) {
    && (forall i :: 0 <= i < |items| && items[i].Item? ==>
          items[i].response.id in byId && byId[items[i].response.id] == items[i].response)
    && (forall id :: id in byId ==> byId[id].id == id && Item(byId[id]) in items)
  }

  /** The scan gets through exactly when the items fit; it then holds just their responses. */
  lemma {:induction false} ScanFinds(items: seq<Item>, expected: set<Id>)
    ensures Scanned(items, expected).Found? <==> Fits(items, expected)
    ensures Scanned(items, expected).Found? ==> Holds(items, Scanned(items, expected).byId)
  {
    if items != [] {
      var earlier, last := items[..|items| - 1], items[|items| - 1];
      assert items == earlier + [last];
      ScanFinds(earlier, expected);
      FitsOneMore(earlier, last, expected);
      hide Fits;
      if Scanned(earlier, expected).Found? {
        FitsAreGood(earlier, expected);
        var byId := Scanned(earlier, expected).byId;
        if last.Item? {
          HeldIds(earlier, byId, last.response.id);
          if last.response.id !in byId {
            HoldsOneMore(earlier, last.response, byId);
          }
        }
        hide Holds;
      }
    }
  }

  lemma FitsOneMore(items: seq<Item>, last: Item, expected: set<Id>)
    ensures Fits(items + [last], expected) <==>
      && Fits(items, expected) && last.Item? && Good(last.response)
      && last.response.id !in Ids(items) && last.response.id in expected
  {
    var all := items + [last];
    assert all[..|items|] == items && all[|items|] == last;
    if AllGood(all) {
      assert forall i :: 0 <= i < |items| ==> items[i] == all[i];
      assert Ids(all) == Ids(items) + [last.response.id];
      if Distinct(Ids(items)) && last.response.id !in Ids(items) {
        AppendDistinct(Ids(items), last.response.id);
      }
    }
  }

  lemma HoldsOneMore(items: seq<Item>, r: Response, byId: map<Id, Response>)
    requires Holds(items, byId) && r.id !in byId
    ensures Holds(items + [Item(r)], byId[r.id := r])
  {
  }

  /** The item at which a scan stops: the ones before it fit, and this is what is wrong with it. */
  ghost predicate WrongAt(items: seq<Item>, expected: set<Id>, i: nat, failure: Failure)
    requires i < |items|
  {
    && Fits(items[..i], expected)
    && match failure
       case InvalidId => items[i].Malformed?
       case DuplicatedId(id) => items[i].Item? && items[i].response.id == id && id in Ids(items[..i])
       case UnexpectedId(id) =>
         items[i].Item? && items[i].response.id == id && id !in Ids(items[..i]) && id !in expected
       case ErrorFor(id) =>
         && items[i].Item? && items[i].response.id == id && id !in Ids(items[..i]) && id in expected
         && items[i].response.hasError
       case OmittedResult(id) =>
         && items[i].Item? && items[i].response.id == id && id !in Ids(items[..i]) && id in expected
         && !items[i].response.hasError && !items[i].response.hasResult
       case _ => false
  }

  lemma {:induction false} ScanStopsAt(items: seq<Item>, expected: set<Id>)
    ensures Scanned(items, expected).Stopped? ==>
      exists i :: 0 <= i < |items| && WrongAt(items, expected, i, Scanned(items, expected).failure)
  {
    if items != [] {
      var earlier, n := items[..|items| - 1], |items| - 1;
      ScanFinds(earlier, expected);
      if Scanned(earlier, expected).Stopped? {
        ScanStopsAt(earlier, expected);
        var i :| 0 <= i < n && WrongAt(earlier, expected, i, Scanned(earlier, expected).failure);
        assert items[..i] == earlier[..i] && items[i] == earlier[i];
        assert WrongAt(items, expected, i, Scanned(items, expected).failure);
      } else if Scanned(items, expected).Stopped? {
        if items[n].Item? {
          HeldIds(earlier, Scanned(earlier, expected).byId, items[n].response.id);
        }
        assert WrongAt(items, expected, n, Scanned(items, expected).failure);
      }
    }
  }

  /** A refused body is no list, or has a first item that does not fit, with its own problem, or fits and leaves exactly
      the named ids without an answer. */
  lemma FailureIsTheFirst(ids: seq<Id>, body: Body)
    requires Matching(ids, body).Failed?
    ensures var failure := Matching(ids, body).failure;
      match failure
      case BodyIsNotAList => body.NotAList?
      case OmittedIds(left) =>
        && body.Batch? && Fits(body.items, IdSet(ids)) && left != {}
        && forall id :: id in left <==> id in ids && id !in Ids(body.items)
      case _ => body.Batch? && exists i :: 0 <= i < |body.items| && WrongAt(body.items, IdSet(ids), i, failure)
  {
    if body.Batch? {
      ScanFinds(body.items, IdSet(ids));
      ScanStopsAt(body.items, IdSet(ids));
      var scan := Scanned(body.items, IdSet(ids));
      hide Fits, Scanned, Holds, WrongAt;
      if scan.Found? {
        forall id
          ensures id in scan.byId <==> id in Ids(body.items)
        {
          FitsAreGood(body.items, IdSet(ids));
          HeldIds(body.items, scan.byId, id);
        }
      }
    }
  }

  lemma FitsAreGood(items: seq<Item>, expected: set<Id>)
    requires Fits(items, expected)
    ensures AllGood(items)
  {
  }

  lemma HeldIds(items: seq<Item>, byId: map<Id, Response>, id: Id)
    requires AllGood(items) && Holds(items, byId)
    ensures id in byId <==> id in Ids(items)
  {
    if id in byId {
      var i :| 0 <= i < |items| && items[i] == Item(byId[id]);
      assert Ids(items)[i] == id;
    }
    if id in Ids(items) {
      var i :| 0 <= i < |items| && Ids(items)[i] == id;
    }
  }

  /** A batch with distinct ids accepts exactly the bodies that answer each of them once (JSON-RPC 2.0, section 6). */
  lemma AcceptsExactlyTheAnswers(ids: seq<Id>, body: Body)
    requires Distinct(ids)
    ensures Matching(ids, body).Matched? <==> body.Batch? && Answers(body.items, ids)
  {
    if body.Batch? {
      var items, expected := body.items, IdSet(ids);
      ScanFinds(items, expected);
      if AllGood(items) {
        PermutationsShareElements(Ids(items), ids);
        if Scanned(items, expected).Found? {
          var byId := Scanned(items, expected).byId;
          forall id ensures id in byId <==> id in Ids(items) {
            HeldIds(items, byId, id);
          }
          NothingMissing(expected, byId);
        }
      }
    }
  }

  /** Whatever order the server answers in, response i is the one the body holds for request i. */
  lemma ResponsesFollowRequests(ids: seq<Id>, body: Body, i: nat)
    requires Matching(ids, body).Matched? && i < |ids|
    ensures var responses := Matching(ids, body).responses;
      && |responses| == |ids|
      && responses[i].id == ids[i]
      && Item(responses[i]) in body.items
      && forall j :: 0 <= j < |body.items| && body.items[j].Item? && body.items[j].response.id == ids[i] ==>
        body.items[j].response == responses[i]
  {
    ScanFinds(body.items, IdSet(ids));
    NothingMissing(IdSet(ids), Scanned(body.items, IdSet(ids)).byId);
    assert ids[i] in IdSet(ids);
  }

  lemma PermutedAnswers(ids: seq<Id>, a: seq<Item>, b: seq<Item>)
    requires Distinct(ids) && multiset(a) == multiset(b) && Answers(a, ids)
    ensures Answers(b, ids)
  {
    PermutationsShareElements(Ids(a), ids);
    assert Distinct(a) by {
      forall i, j | 0 <= i < j < |a| ensures a[i] != a[j] {
        assert Ids(a)[i] != Ids(a)[j];
      }
    }
    PermutationsShareElements(b, a);
    forall i | 0 <= i < |b| ensures b[i] in a {
      assert b[i] in b;
    }
    forall i, j | 0 <= i < j < |b| ensures Ids(b)[i] != Ids(b)[j] {
      var p :| 0 <= p < |a| && a[p] == b[i];
      var q :| 0 <= q < |a| && a[q] == b[j];
      assert Ids(a)[p] == Ids(b)[i] && Ids(a)[q] == Ids(b)[j];
    }
    forall id ensures id in Ids(b) <==> id in ids {
      SameIds(a, b, id);
      SameIds(b, a, id);
    }
    PermutationsShareElements(Ids(b), ids);
  }

  lemma SameIds(a: seq<Item>, b: seq<Item>, id: Id)
    requires AllGood(a) && AllGood(b) && (forall x :: x in a ==> x in b)
    ensures id in Ids(a) ==> id in Ids(b)
  {
    if id in Ids(a) {
      var p :| 0 <= p < |a| && Ids(a)[p] == id;
      assert a[p] in b;
      var q :| 0 <= q < |b| && b[q] == a[p];
      assert Ids(b)[q] == id;
    }
  }

  /** Two servers' orders of the same answers give the same result. */
  lemma OrderIsImmaterial(ids: seq<Id>, a: seq<Item>, b: seq<Item>)
    requires Distinct(ids) && multiset(a) == multiset(b) && Answers(a, ids)
    ensures Matching(ids, Batch(a)) == Matching(ids, Batch(b))
  {
    hide Matching;
    PermutedAnswers(ids, a, b);
    AcceptsExactlyTheAnswers(ids, Batch(a));
    AcceptsExactlyTheAnswers(ids, Batch(b));
    var x, y := Matching(ids, Batch(a)).responses, Matching(ids, Batch(b)).responses;
    if ids != [] {
      ResponsesFollowRequests(ids, Batch(a), 0);
      ResponsesFollowRequests(ids, Batch(b), 0);
    }
    forall i | 0 <= i < |ids| ensures |x| == |ids| == |y| && x[i] == y[i] {
      ResponsesFollowRequests(ids, Batch(a), i);
      ResponsesFollowRequests(ids, Batch(b), i);
      assert Item(y[i]) in multiset(b);
    }
  }

  // ---------------------------------------------------------------- the parallel mode

  type Row(==, !new, 0)

  /** What a worker's future holds in the end: a row and the requests it took, or an exception. */
  datatype Job = Done(row: Row, requests: nat) | Raised

  function Indices(n: nat): (r: set<nat>)
    ensures forall i: nat :: i in r <==> i < n
  {
    if n == 0 then {} else Indices(n - 1) + {n - 1}
  }

  /** Requests of the finished jobs among the first n. */
  ghost function Requests(jobs: seq<Job>, finished: set<nat>, n: nat): nat
    requires n <= |jobs|
  {
    if n == 0 then 0
    else Requests(jobs, finished, n - 1) + if n - 1 in finished && jobs[n - 1].Done? then jobs[n - 1].requests else 0
  }

  lemma {:induction false} OneMoreFinished(jobs: seq<Job>, finished: set<nat>, i: nat, n: nat)
    requires n <= |jobs| && i < |jobs| && i !in finished && jobs[i].Done?
    ensures Requests(jobs, finished + {i}, n) == Requests(jobs, finished, n) + if i < n then jobs[i].requests else 0
  {
    if n > 0 {
      OneMoreFinished(jobs, finished, i, n - 1);
    }
  }

  /** `[row for row in rows if row is not None]` */
  function Filled(slots: seq<Option<Row>>): seq<Row> {
    if slots == [] then [] else
      Filled(slots[..|slots| - 1]) + if slots[|slots| - 1].Some? then [slots[|slots| - 1].value] else []
  }

  lemma {:induction false} FullSlots(slots: seq<Option<Row>>, i: nat)
    requires i < |slots| && forall j :: 0 <= j < |slots| ==> slots[j].Some?
    ensures |Filled(slots)| == |slots| && Filled(slots)[i] == slots[i].value
  {
    if |slots| > 1 {
      FullSlots(slots[..|slots| - 1], if i < |slots| - 1 then i else 0);
    }
  }

  /** Waits for the jobs in whatever order they finish: the rows come out in block order and every request is
      counted. */
  method Parallel(jobs: seq<Job>) returns (rows: Option<seq<Row>>, requests: nat)
    ensures rows.None? <==> exists i :: 0 <= i < |jobs| && jobs[i].Raised?
    ensures rows.Some? ==>
      |rows.value| == |jobs| && forall i :: 0 <= i < |jobs| ==> rows.value[i] == jobs[i].row
    ensures rows.Some? ==> requests == Requests(jobs, Indices(|jobs|), |jobs|)
  {
    var slots := new Option<Row>[|jobs|](_ => None);
    requests := 0;
    var pending := Indices(|jobs|);
    ghost var all, finished: set<nat> := pending, {};
    NoneFinished(jobs, |jobs|);
    while pending != {}
      invariant finished + pending == all && finished !! pending
      invariant forall i: nat :: i in finished ==> jobs[i].Done? && slots[i] == Some(jobs[i].row)
      invariant requests == Requests(jobs, finished, |jobs|)
      decreases pending
    {
      var index :| index in pending;
      if jobs[index].Raised? {
        return None, requests;
      }
      slots[index] := Some(jobs[index].row);
      requests := requests + jobs[index].requests;
      OneMoreFinished(jobs, finished, index, |jobs|);
      pending, finished := pending - {index}, finished + {index};
    }
    assert finished == all;
    assert forall i: nat :: i < |jobs| ==> i in finished;
    rows := Some(Filled(slots[..]));
    assert forall i: nat :: i < |jobs| ==> slots[..][i] == Some(jobs[i].row);
    assert |jobs| == 0 ==> slots[..] == [];
    forall i: nat | i < |jobs| ensures |rows.value| == |jobs| && rows.value[i] == jobs[i].row {
      FullSlots(slots[..], i);
    }
  }

  lemma {:induction false} NoneFinished(jobs: seq<Job>, n: nat)
    requires n <= |jobs|
    ensures Requests(jobs, {}, n) == 0
  {
    if n > 0 {
      NoneFinished(jobs, n - 1);
    }
  }
}
