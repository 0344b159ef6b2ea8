/** The study manifest: per-block counters kept at each checkpoint against a recount of every block record. */
module Summaries {
  import opened Lists

  datatype Status = Planned | Completed | Failed | Foreign(text: string)

  /** A stage attempt's `network_requests`: an integer, a boolean (which Python takes for an integer), missing, or
      something else. */
  datatype Requests = Known(n: int) | Flag(b: bool) | Unknown | Other

  /** A block record: scenario statuses by key, and the attempts of each stage row. */
  datatype Block = Block(scenarios: map<string, Status>, stages: seq<seq<Requests>>)

  /** The version 2 manifest row of a block. */
  datatype Row = Row(completed: nat, failed: nat, known: int, unknown: nat)

  datatype Summary = Summary(
    planned: int, completed: int, failed: int, total: int, remaining: int, known: int, unknown: int)

  // ---------------------------------------------------------------- counting

  function WithStatus(scenarios: map<string, Status>, status: Status): set<string> {
    set k | k in scenarios && scenarios[k] == status
  }

  function Flatten(stages: seq<seq<Requests>>): seq<Requests> {
    if stages == [] then [] else Flatten(stages[..|stages| - 1]) + stages[|stages| - 1]
  }

  function KnownSum(rs: seq<Requests>): int {
    if rs == [] then 0
    else KnownSum(rs[..|rs| - 1]) + (if rs[|rs| - 1].Known? then rs[|rs| - 1].n else 0)
  }

  /** `true` entries: `isinstance` counts each as 1, `type(...) is int` leaves them out. */
  function TrueCount(rs: seq<Requests>): nat {
    if rs == [] then 0 else TrueCount(rs[..|rs| - 1]) + (if rs[|rs| - 1] == Flag(true) then 1 else 0)
  }

  /** The recount's sum of everything that is an instance of `int`. */
  function InstanceSum(rs: seq<Requests>): int {
    if rs == [] then 0
    else InstanceSum(rs[..|rs| - 1]) + InstanceValue(rs[|rs| - 1])
  }

  function InstanceValue(r: Requests): int {
    match r
    case Known(n) => n
    case Flag(b) => if b then 1 else 0
    case _ => 0
  }

  function UnknownCount(rs: seq<Requests>): nat {
    if rs == [] then 0 else UnknownCount(rs[..|rs| - 1]) + (if rs[|rs| - 1].Unknown? then 1 else 0)
  }

  function RowOf(b: Block): Row {
    Row(|WithStatus(b.scenarios, Completed)|, |WithStatus(b.scenarios, Failed)|, KnownSum(Flatten(b.stages)),
        UnknownCount(Flatten(b.stages)))
  }

  function Total<K>(keys: seq<K>, f: K -> int): int {
    if keys == [] then 0 else Total(keys[..|keys| - 1], f) + f(keys[|keys| - 1])
  }

  // ---------------------------------------------------------------- version 1: recount everything

  function Lookup(blocks: map<nat, Block>, number: nat): Block {
    if number in blocks then blocks[number] else Block(map[], [])
  }

  /** The status the recount reads for one planned job; a missing entry is planned. */
  function StatusAt(blocks: map<nat, Block>, number: nat, key: string): Status {
    var scenarios := Lookup(blocks, number).scenarios;
    if key in scenarios then scenarios[key] else Planned
  }

  /** One for each planned job of the block whose status passes the test. */
  function JobTest(blocks: map<nat, Block>, number: nat, test: Status -> bool): string -> int {
    (key: string) => if test(StatusAt(blocks, number, key)) then 1 else 0
  }

  function BlockCount(blocks: map<nat, Block>, keys: seq<string>, test: Status -> bool): nat -> int {
    (number: nat) => Total(keys, JobTest(blocks, number, test))
  }

  function Recount(blocks: map<nat, Block>, planned: seq<nat>, keys: seq<string>, test: Status -> bool): int {
    Total(planned, BlockCount(blocks, keys, test))
  }

  function Is(status: Status): Status -> bool {
    (s: Status) => s == status
  }

  function IsForeign(): Status -> bool {
    (s: Status) => s.Foreign?
  }

  function KnownOf(blocks: map<nat, Block>): nat -> int {
    (number: nat) => KnownSum(Flatten(Lookup(blocks, number).stages))
  }

  function InstancesOf(blocks: map<nat, Block>): nat -> int {
    (number: nat) => InstanceSum(Flatten(Lookup(blocks, number).stages))
  }

  function TruesOf(blocks: map<nat, Block>): nat -> int {
    (number: nat) => TrueCount(Flatten(Lookup(blocks, number).stages))
  }

  function UnknownOf(blocks: map<nat, Block>): nat -> int {
    (number: nat) => UnknownCount(Flatten(Lookup(blocks, number).stages))
  }

  function Version1(blocks: map<nat, Block>, planned: seq<nat>, keys: seq<string>): Summary {
    var completed := Recount(blocks, planned, keys, Is(Completed));
    Summary(
      Recount(blocks, planned, keys, Is(Planned)), completed, Recount(blocks, planned, keys, Is(Failed)),
      |planned| * |keys|, |planned| * |keys| - completed,
      Total(planned, InstancesOf(blocks)), Total(planned, UnknownOf(blocks)))
  }

  // ---------------------------------------------------------------- version 2: add up the rows

  function RowAt(rows: map<nat, Row>, number: nat): Row {
    if number in rows then rows[number] else Row(0, 0, 0, 0)
  }

  function CompletedIn(rows: map<nat, Row>): nat -> int {
    (n: nat) => RowAt(rows, n).completed
  }

  function FailedIn(rows: map<nat, Row>): nat -> int {
    (n: nat) => RowAt(rows, n).failed
  }

  function KnownIn(rows: map<nat, Row>): nat -> int {
    (n: nat) => RowAt(rows, n).known
  }

  function UnknownIn(rows: map<nat, Row>): nat -> int {
    (n: nat) => RowAt(rows, n).unknown
  }

  /** `order` is the insertion order of the manifest's rows. */
  function Version2(rows: map<nat, Row>, order: seq<nat>, planned: seq<nat>, keys: seq<string>): Summary {
    var total := |planned| * |keys|;
    var completed := Total(order, CompletedIn(rows));
    var failed := Total(order, FailedIn(rows));
    Summary(total - completed - failed, completed, failed, total, total - completed,
            Total(order, KnownIn(rows)),
            Total(order, UnknownIn(rows)))
  }

  // ---------------------------------------------------------------- the manifest object

  class Manifest {
    const planned: seq<nat>
    const keys: seq<string>
    /** The shard files, each written atomically before its row. */
    var shards: map<nat, Block>
    var order: seq<nat>
    var rows: map<nat, Row>
    var summary: Summary

    constructor (planned: seq<nat>, keys: seq<string>)
      ensures this.planned == planned && this.keys == keys && shards == map[] && order == [] && rows == map[] && Valid()
    {
      this.planned, this.keys := planned, keys;
      shards, order, rows := map[], [], map[];
      summary := Summary(0, 0, 0, 0, 0, 0, 0);
    }

    /** Every row is the count of its block's shard. */
    ghost predicate Valid()
      reads this
    {
      && rows.Keys == shards.Keys
      && (forall n :: n in rows ==> rows[n] == RowOf(shards[n]))
      && (forall n :: n in order <==> n in rows)
      && Distinct(order)
    }

    /** `_checkpoint_block` of version 2. */
    method Checkpoint(number: nat, block: Block)
      requires Valid()
      modifies this`shards, this`rows, this`order
      ensures Valid() && shards == old(shards)[number := block]
    {
      shards := shards[number := block];
      if number !in rows {
        AppendDistinct(order, number);
        order := order + [number];
      }
      rows := rows[number := RowOf(block)];
    }

    /** `_summarize` of version 2: one pass over the rows. */
    method Summarize()
      requires Valid()
      modifies this`summary
      ensures summary == Version2(rows, order, planned, keys)
    {
      var total := |planned| * |keys|;
      var completed, failed, known, unknown := 0, 0, 0, 0;
      var i := 0;
      while i < |order|
        invariant 0 <= i <= |order|
        invariant completed == Total(order[..i], CompletedIn(rows))
        invariant failed == Total(order[..i], FailedIn(rows))
        invariant known == Total(order[..i], KnownIn(rows))
        invariant unknown == Total(order[..i], UnknownIn(rows))
      {
        assert order[..i + 1][..i] == order[..i];
        var row := rows[order[i]];
        completed, failed := completed + row.completed, failed + row.failed;
        known, unknown := known + row.known, unknown + row.unknown;
        i := i + 1;
      }
      assert order[..|order|] == order;
      summary := Summary(total - completed - failed, completed, failed, total, total - completed, known, unknown);
    }
  }

  lemma {:induction false} TotalSplits<K>(a: seq<K>, b: seq<K>, f: K -> int)
    ensures Total(a + b, f) == Total(a, f) + Total(b, f)
    decreases |b|
  {
    if b == [] {
      assert a + b == a;
    } else {
      assert (a + b)[..|a + b| - 1] == a + b[..|b| - 1];
      TotalSplits(a, b[..|b| - 1], f);
    }
  }

  lemma {:induction false} TotalOfZeros<K>(xs: seq<K>, f: K -> int)
    requires forall x :: x in xs ==> f(x) == 0
    ensures Total(xs, f) == 0
    decreases |xs|
  {
    if xs != [] {
      TotalOfZeros(xs[..|xs| - 1], f);
    }
  }

  /** Distinct keys may be added up in any order, and keys worth nothing left out. */
  lemma {:induction false} TotalsReorder<K>(order: seq<K>, all: seq<K>, f: K -> int)
    requires Distinct(order) && Distinct(all)
    requires forall x :: x in order ==> x in all
    requires forall x :: x in all && x !in order ==> f(x) == 0
    ensures Total(order, f) == Total(all, f)
    decreases |order|
  {
    hide Total, Distinct;
    if order == [] {
      TotalOfNone(f);
      TotalOfZeros(all, f);
    } else {
      var front, x := order[..|order| - 1], order[|order| - 1];
      assert order == front + [x] && x in order;
      var i :| 0 <= i < |all| && all[i] == x;
      var rest := all[..i] + all[i + 1..];
      LastIsNew(order);
      RemainingDistinct(all, i);
      TakeOut(all, i, f);
      TotalSplits(front, [x], f);
      TotalsReorder(front, rest, f);
    }
  }

  lemma LastIsNew<K>(xs: seq<K>)
    requires Distinct(xs) && xs != []
    ensures Distinct(xs[..|xs| - 1])
    ensures forall x :: x in xs[..|xs| - 1] <==> x in xs && x != xs[|xs| - 1]
  {
    var front := xs[..|xs| - 1];
    assert xs == front + [xs[|xs| - 1]];
  }

  lemma TakeOut<K>(xs: seq<K>, i: nat, f: K -> int)
    requires i < |xs|
    ensures Total(xs, f) == Total(xs[..i] + xs[i + 1..], f) + Total([xs[i]], f)
  {
    hide Total;
    var a, b := xs[..i], xs[i + 1..];
    assert xs == a + ([xs[i]] + b);
    TotalSplits(a, [xs[i]] + b, f);
    TotalSplits([xs[i]], b, f);
    TotalSplits(a, b, f);
  }

  lemma TotalOfNone<K>(f: K -> int)
    ensures Total([], f) == 0
  {
  }

  lemma RemainingDistinct<K>(xs: seq<K>, i: nat)
    requires Distinct(xs) && i < |xs|
    ensures var rest := xs[..i] + xs[i + 1..]; Distinct(rest) && forall x :: x in rest <==> x in xs && x != xs[i]
  {
    var rest := xs[..i] + xs[i + 1..];
    forall x | x in xs && x != xs[i]
      ensures x in rest
    {
      var j :| 0 <= j < |xs| && xs[j] == x;
      assert rest[if j < i then j else j - 1] == x;
    }
    forall x | x in rest
      ensures x in xs && x != xs[i]
    {
      var j :| 0 <= j < |rest| && rest[j] == x;
      assert xs[if j < i then j else j + 1] == x;
    }
  }

  /** Counting the keys that pass a test, over a distinct list that has them all. */
  lemma {:induction false} CountIsSize(keys: seq<string>, passed: set<string>, f: string -> int)
    requires Distinct(keys) && (forall k :: k in passed ==> k in keys)
    requires forall k :: k in keys ==> f(k) == if k in passed then 1 else 0
    ensures Total(keys, f) == |passed|
    decreases |keys|
  {
    if keys == [] {
      assert passed == {};
    } else {
      var front, k := keys[..|keys| - 1], keys[|keys| - 1];
      assert keys == front + [k] && k in keys;
      CountIsSize(front, passed - {k}, f);
    }
  }

  lemma {:induction false} TotalsEqual<K>(xs: seq<K>, f: K -> int, g: K -> int)
    requires forall x :: x in xs ==> f(x) == g(x)
    ensures Total(xs, f) == Total(xs, g)
    decreases |xs|
  {
    if xs != [] {
      TotalsEqual(xs[..|xs| - 1], f, g);
    }
  }

  /** A counter kept in the rows adds up to the recount of that counter over the plan. */
  lemma RowsAddUp(order: seq<nat>, planned: seq<nat>, inRows: nat -> int, recount: nat -> int)
    requires Distinct(order) && Distinct(planned)
    requires forall n :: n in order ==> n in planned
    requires forall n :: n in planned ==> inRows(n) == recount(n)
    requires forall n :: n in planned && n !in order ==> inRows(n) == 0
    ensures Total(order, inRows) == Total(planned, recount)
  {
    TotalsReorder(order, planned, inRows);
    TotalsEqual(planned, inRows, recount);
  }

  /** The keys of blocks and entries that the plan knows. */
  ghost predicate Expected(shards: map<nat, Block>, planned: seq<nat>, keys: seq<string>) {
    && Distinct(planned) && Distinct(keys)
    && (forall n :: n in shards ==> n in planned)
    && (forall n, k :: n in shards && k in shards[n].scenarios ==> k in keys)
  }

  ghost predicate Matching(shards: map<nat, Block>, rows: map<nat, Row>, order: seq<nat>) {
    && rows.Keys == shards.Keys && Distinct(order)
    && (forall n :: n in rows ==> rows[n] == RowOf(shards[n]))
    && (forall n :: n in order <==> n in rows)
  }

  lemma StatusCounts(shards: map<nat, Block>, keys: seq<string>, n: nat, status: Status)
    requires Distinct(keys) && !status.Planned?
    requires forall k :: n in shards && k in shards[n].scenarios ==> k in keys
    ensures BlockCount(shards, keys, Is(status))(n) ==
      if n in shards then |WithStatus(shards[n].scenarios, status)| else 0
  {
    if n in shards {
      var passed, f := WithStatus(shards[n].scenarios, status), JobTest(shards, n, Is(status));
      forall k | k in keys
        ensures f(k) == if k in passed then 1 else 0
      {
        assert Is(status)(StatusAt(shards, n, k)) <==> k in passed;
      }
      CountIsSize(keys, passed, f);
    } else {
      forall k | k in keys
        ensures JobTest(shards, n, Is(status))(k) == 0
      {
        assert StatusAt(shards, n, k) == Planned;
      }
      TotalOfZeros(keys, JobTest(shards, n, Is(status)));
    }
  }

  /** Every planned job has exactly one of the four kinds of status. */
  lemma {:induction false} JobsPartition(blocks: map<nat, Block>, keys: seq<string>, n: nat)
    ensures Total(keys, JobTest(blocks, n, Is(Planned))) + Total(keys, JobTest(blocks, n, Is(Completed)))
          + Total(keys, JobTest(blocks, n, Is(Failed))) + Total(keys, JobTest(blocks, n, IsForeign())) == |keys|
    decreases |keys|
  {
    if keys != [] {
      JobsPartition(blocks, keys[..|keys| - 1], n);
      var k := keys[|keys| - 1];
      var status := StatusAt(blocks, n, k);
      assert JobTest(blocks, n, Is(Planned))(k) + JobTest(blocks, n, Is(Completed))(k)
        + JobTest(blocks, n, Is(Failed))(k)
           + JobTest(blocks, n, IsForeign())(k) == 1 by {
        assert Is(Planned)(status) <==> status.Planned?;
        assert Is(Completed)(status) <==> status.Completed?;
        assert Is(Failed)(status) <==> status.Failed?;
        assert IsForeign()(status) <==> status.Foreign?;
      }
    }
  }

  lemma {:induction false} PlanPartition(blocks: map<nat, Block>, planned: seq<nat>, keys: seq<string>)
    ensures Recount(blocks, planned, keys, Is(Planned)) + Recount(blocks, planned, keys, Is(Completed))
          + Recount(blocks, planned, keys, Is(Failed)) + Recount(blocks, planned, keys, IsForeign()) ==
            |planned| * |keys|
    decreases |planned|
  {
    if planned != [] {
      var front, n := planned[..|planned| - 1], planned[|planned| - 1];
      PlanPartition(blocks, front, keys);
      JobsPartition(blocks, keys, n);
      assert |planned| * |keys| == |front| * |keys| + |keys|;
    }
  }

  lemma {:induction false} TotalIsNonNegative<K>(xs: seq<K>, f: K -> int)
    requires forall x :: x in xs ==> f(x) >= 0
    ensures Total(xs, f) >= 0
    decreases |xs|
  {
    if xs != [] {
      TotalIsNonNegative(xs[..|xs| - 1], f);
    }
  }

  lemma RecountIsNonNegative(blocks: map<nat, Block>, planned: seq<nat>, keys: seq<string>, test: Status -> bool)
    ensures Recount(blocks, planned, keys, test) >= 0
  {
    forall n | n in planned
      ensures BlockCount(blocks, keys, test)(n) >= 0
    {
      TotalIsNonNegative(keys, JobTest(blocks, n, test));
    }
    TotalIsNonNegative(planned, BlockCount(blocks, keys, test));
  }

  lemma {:induction false} InstancesSplit(rs: seq<Requests>)
    ensures InstanceSum(rs) == KnownSum(rs) + TrueCount(rs)
  {
    if rs != [] {
      InstancesSplit(rs[..|rs| - 1]);
    }
  }

  lemma {:induction false} TotalInstancesSplit(blocks: map<nat, Block>, planned: seq<nat>)
    ensures Total(planned, InstancesOf(blocks)) == Total(planned, KnownOf(blocks)) + Total(planned, TruesOf(blocks))
    ensures Total(planned, TruesOf(blocks)) >= 0
  {
    if planned != [] {
      TotalInstancesSplit(blocks, planned[..|planned| - 1]);
      InstancesSplit(Flatten(Lookup(blocks, planned[|planned| - 1]).stages));
    }
  }

  /** The row totals are the recount, except that statuses the recount does not know are taken for planned ones and
      `true` request counts are left out; and planned is never negative. */
  lemma VersionsAgree(
    shards: map<nat, Block>, rows: map<nat, Row>, order: seq<nat>, planned: seq<nat>, keys: seq<string>)
    requires Matching(shards, rows, order) && Expected(shards, planned, keys)
    ensures var v1, v2 := Version1(shards, planned, keys), Version2(rows, order, planned, keys);
      && v2 == Adjusted(v1, shards, planned, keys)
      && v2.planned >= 0
  {
    forall n | n in planned
      ensures CompletedIn(rows)(n) == BlockCount(shards, keys, Is(Completed))(n)
      ensures FailedIn(rows)(n) == BlockCount(shards, keys, Is(Failed))(n)
    {
      StatusCounts(shards, keys, n, Completed);
      StatusCounts(shards, keys, n, Failed);
    }
    RowsAddUp(order, planned, CompletedIn(rows), BlockCount(shards, keys, Is(Completed)));
    RowsAddUp(order, planned, FailedIn(rows), BlockCount(shards, keys, Is(Failed)));
    RowsAddUp(order, planned, KnownIn(rows), KnownOf(shards));
    RowsAddUp(order, planned, UnknownIn(rows), UnknownOf(shards));
    TotalInstancesSplit(shards, planned);
    PlanPartition(shards, planned, keys);
    RecountIsNonNegative(shards, planned, keys, Is(Planned));
    RecountIsNonNegative(shards, planned, keys, IsForeign());
  }

  function Adjusted(v1: Summary, blocks: map<nat, Block>, planned: seq<nat>, keys: seq<string>): Summary {
    v1.(planned := v1.planned + Recount(blocks, planned, keys, IsForeign()),
        known := v1.known - Total(planned, TruesOf(blocks)))
  }

  /** The two versions agree exactly when every status is planned, completed or failed and no request count is
      `true`. */
  lemma VersionsAgreeWithoutForeign(
    shards: map<nat, Block>, rows: map<nat, Row>, order: seq<nat>, planned: seq<nat>, keys: seq<string>)
    requires Matching(shards, rows, order) && Expected(shards, planned, keys)
    ensures Version2(rows, order, planned, keys) == Version1(shards, planned, keys) <==>
      && (forall n, k :: n in planned && k in keys ==> !StatusAt(shards, n, k).Foreign?)
      && (forall n :: n in planned ==> Flag(true) !in Flatten(Lookup(shards, n).stages))
  {
    hide Version1, Version2, Matching, Expected, Flatten, TrueCount;
    VersionsAgree(shards, rows, order, planned, keys);
    RecountIsNonNegative(shards, planned, keys, IsForeign());
    ForeignersAreCounted(shards, planned, keys);
    TruesAreCounted(shards, planned);
  }

  lemma ForeignersAreCounted(blocks: map<nat, Block>, planned: seq<nat>, keys: seq<string>)
    ensures Recount(blocks, planned, keys, IsForeign()) == 0 <==>
      forall n, k :: n in planned && k in keys ==> !StatusAt(blocks, n, k).Foreign?
  {
    if n, k :| n in planned && k in keys && StatusAt(blocks, n, k).Foreign? {
      OneJobCounts(blocks, planned, keys, n, k);
    } else {
      forall n | n in planned
        ensures BlockCount(blocks, keys, IsForeign())(n) == 0
      {
        TotalOfZeros(keys, JobTest(blocks, n, IsForeign()));
      }
      TotalOfZeros(planned, BlockCount(blocks, keys, IsForeign()));
    }
  }

  lemma {:induction false} TrueIsCounted(rs: seq<Requests>)
    ensures TrueCount(rs) == 0 <==> Flag(true) !in rs
  {
    if rs != [] {
      TrueIsCounted(rs[..|rs| - 1]);
      assert rs == rs[..|rs| - 1] + [rs[|rs| - 1]];
    }
  }

  lemma TruesAreCounted(blocks: map<nat, Block>, planned: seq<nat>)
    ensures Total(planned, TruesOf(blocks)) == 0 <==>
      forall n :: n in planned ==> Flag(true) !in Flatten(Lookup(blocks, n).stages)
  {
    forall n ensures TruesOf(blocks)(n) == 0 <==> Flag(true) !in Flatten(Lookup(blocks, n).stages) {
      TrueIsCounted(Flatten(Lookup(blocks, n).stages));
    }
    if n :| n in planned && Flag(true) in Flatten(Lookup(blocks, n).stages) {
      OnePositive(planned, TruesOf(blocks), n);
    } else {
      TotalOfZeros(planned, TruesOf(blocks));
    }
  }

  lemma OneJobCounts(blocks: map<nat, Block>, planned: seq<nat>, keys: seq<string>, n: nat, k: string)
    requires n in planned && k in keys && StatusAt(blocks, n, k).Foreign?
    ensures Recount(blocks, planned, keys, IsForeign()) > 0
  {
    var f, g := BlockCount(blocks, keys, IsForeign()), JobTest(blocks, n, IsForeign());
    OnePositive(keys, g, k);
    forall m | m in planned
      ensures f(m) >= 0
    {
      TotalIsNonNegative(keys, JobTest(blocks, m, IsForeign()));
    }
    OnePositive(planned, f, n);
  }

  lemma {:induction false} OnePositive<K>(xs: seq<K>, f: K -> int, x: K)
    requires (forall y :: y in xs ==> f(y) >= 0) && x in xs && f(x) > 0
    ensures Total(xs, f) > 0
    decreases |xs|
  {
    var front := xs[..|xs| - 1];
    assert xs == front + [xs[|xs| - 1]];
    if x == xs[|xs| - 1] {
      TotalIsNonNegative(front, f);
    } else {
      OnePositive(front, f, x);
    }
  }

  function Latest(checkpoints: seq<(nat, Block)>): map<nat, Block> {
    if checkpoints == [] then map[]
    else Latest(checkpoints[..|checkpoints| - 1])[checkpoints[|checkpoints| - 1].0 := checkpoints[|checkpoints| - 1].1]
  }

  /** After any sequence of checkpoints the incremental summary is the recount of the latest block records, with
      foreign statuses counted as planned and `true` request counts left out. */
  method SummarizeRun(planned: seq<nat>, keys: seq<string>, checkpoints: seq<(nat, Block)>) returns (summary: Summary)
    requires Distinct(planned) && Distinct(keys)
    requires forall c :: c in checkpoints ==> c.0 in planned && forall k :: k in c.1.scenarios ==> k in keys
    ensures var blocks := Latest(checkpoints);
      summary == Adjusted(Version1(blocks, planned, keys), blocks, planned, keys)
  {
    hide Version1, Version2, Adjusted;
    var manifest := new Manifest(planned, keys);
    var i := 0;
    while i < |checkpoints|
      invariant 0 <= i <= |checkpoints| && fresh(manifest) && manifest.Valid()
      invariant manifest.shards == Latest(checkpoints[..i])
      invariant Expected(manifest.shards, planned, keys)
    {
      assert checkpoints[..i + 1][..i] == checkpoints[..i];
      assert checkpoints[i] in checkpoints;
      manifest.Checkpoint(checkpoints[i].0, checkpoints[i].1);
      i := i + 1;
    }
    assert checkpoints[..|checkpoints|] == checkpoints;
    manifest.Summarize();
    VersionsAgree(manifest.shards, manifest.rows, manifest.order, planned, keys);
    summary := manifest.summary;
  }
}
