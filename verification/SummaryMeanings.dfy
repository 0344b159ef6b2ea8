/** What the totals of the study manifest count, said of the block records alone. */
module SummaryMeanings {
  import opened Lists
  import opened Summaries

  // ---------------------------------------------------------------- jobs

  /** The planned jobs, as block and key, of this status; a missing entry is planned. */
  ghost function Jobs(blocks: map<nat, Block>, planned: seq<nat>, keys: seq<string>, status: Status)
    : (jobs: set<(nat, string)>)
  {
    set n, k | n in planned && k in keys && HasStatus(blocks, n, k, status) :: (n, k)
  }

  predicate HasStatus(blocks: map<nat, Block>, n: nat, k: string, status: Status) {
    if n in blocks && k in blocks[n].scenarios then blocks[n].scenarios[k] == status else status == Planned
  }

  /** The keys of one block's jobs of this status. */
  ghost function KeysOf(blocks: map<nat, Block>, n: nat, keys: seq<string>, status: Status): set<string> {
    set k | k in keys && HasStatus(blocks, n, k, status)
  }

  lemma BlockCounts(blocks: map<nat, Block>, n: nat, keys: seq<string>, status: Status)
    requires Distinct(keys)
    ensures BlockCount(blocks, keys, Is(status))(n) == |KeysOf(blocks, n, keys, status)|
  {
    var passed, f := KeysOf(blocks, n, keys, status), JobTest(blocks, n, Is(status));
    forall k | k in keys
      ensures f(k) == if k in passed then 1 else 0
    {
      assert Is(status)(StatusAt(blocks, n, k)) <==> HasStatus(blocks, n, k, status);
    }
    CountIsSize(keys, passed, f);
  }

  lemma {:induction false} PairsOf(n: nat, ks: set<string>)
    ensures |set k | k in ks :: (n, k)| == |ks|
    decreases ks
  {
    var pairs := set k | k in ks :: (n, k);
    if ks != {} {
      var k :| k in ks;
      PairsOf(n, ks - {k});
      assert pairs == (set l | l in ks - {k} :: (n, l)) + {(n, k)};
    }
  }

  /** The recount of a status is the number of planned jobs that have it. */
  lemma {:induction false} RecountCountsJobs(
    blocks: map<nat, Block>, planned: seq<nat>, keys: seq<string>, status: Status)
    requires Distinct(planned) && Distinct(keys)
    ensures Recount(blocks, planned, keys, Is(status)) == |Jobs(blocks, planned, keys, status)|
    decreases |planned|
  {
    if planned == [] {
      assert Jobs(blocks, planned, keys, status) == {};
    } else {
      var front, n := planned[..|planned| - 1], planned[|planned| - 1];
      assert planned == front + [n];
      RecountCountsJobs(blocks, front, keys, status);
      BlockCounts(blocks, n, keys, status);
      PairsOf(n, KeysOf(blocks, n, keys, status));
      OneMoreBlock(blocks, front, n, keys, status);
    }
  }

  lemma OneMoreBlock(blocks: map<nat, Block>, front: seq<nat>, n: nat, keys: seq<string>, status: Status)
    requires n !in front
    ensures var own := set k | k in KeysOf(blocks, n, keys, status) :: (n, k);
      && Jobs(blocks, front + [n], keys, status) == Jobs(blocks, front, keys, status) + own
      && |Jobs(blocks, front + [n], keys, status)| == |Jobs(blocks, front, keys, status)| + |own|
  {
    var own := set k | k in KeysOf(blocks, n, keys, status) :: (n, k);
    var earlier := Jobs(blocks, front, keys, status);
    assert Jobs(blocks, front + [n], keys, status) == earlier + own;
    assert earlier !! own;
  }

  // ---------------------------------------------------------------- requests

  /** The values of the first j attempts of a stage. */
  function StageSum(stage: seq<Requests>, value: Requests -> int, j: nat): int
    requires j <= |stage|
  {
    if j == 0 then 0 else StageSum(stage, value, j - 1) + value(stage[j - 1])
  }

  /** The values of all attempts of the first i stages of a block. */
  function AttemptSum(stages: seq<seq<Requests>>, value: Requests -> int, i: nat): int
    requires i <= |stages|
  {
    if i == 0 then 0
    else AttemptSum(stages, value, i - 1) + StageSum(stages[i - 1], value, |stages[i - 1]|)
  }

  /** The values of all attempts of the first n planned blocks; a block without a record has none. */
  function PlanSum(blocks: map<nat, Block>, planned: seq<nat>, value: Requests -> int, n: nat): int
    requires n <= |planned|
  {
    if n == 0 then 0
    else
      PlanSum(blocks, planned, value, n - 1)
      + if planned[n - 1] in blocks
        then AttemptSum(blocks[planned[n - 1]].stages, value, |blocks[planned[n - 1]].stages|) else 0
  }

  /** An integer counts as itself; a boolean, which Python takes for an integer, as 0 or 1. */
  function IntegerValue(): Requests -> int {
    (r: Requests) => match r case Known(n) => n case Flag(b) => (if b then 1 else 0) case _ => 0
  }

  function OneIfUnknown(): Requests -> int {
    (r: Requests) => match r case Unknown => 1 case _ => 0
  }

  lemma {:induction false} StageCounts(before: seq<Requests>, stage: seq<Requests>, j: nat)
    requires j <= |stage|
    ensures InstanceSum(before + stage[..j]) == InstanceSum(before) + StageSum(stage, IntegerValue(), j)
    ensures UnknownCount(before + stage[..j]) == UnknownCount(before) + StageSum(stage, OneIfUnknown(), j)
  {
    if j == 0 {
      assert before + stage[..0] == before;
    } else {
      StageCounts(before, stage, j - 1);
      var all := before + stage[..j];
      assert all[..|all| - 1] == before + stage[..j - 1] && all[|all| - 1] == stage[j - 1];
    }
  }

  lemma {:induction false} AttemptsCount(stages: seq<seq<Requests>>, i: nat)
    requires i <= |stages|
    ensures InstanceSum(Flatten(stages[..i])) == AttemptSum(stages, IntegerValue(), i)
    ensures UnknownCount(Flatten(stages[..i])) == AttemptSum(stages, OneIfUnknown(), i)
  {
    if i > 0 {
      var stage := stages[i - 1];
      AttemptsCount(stages, i - 1);
      assert stages[..i][..i - 1] == stages[..i - 1] && stage[..|stage|] == stage;
      StageCounts(Flatten(stages[..i - 1]), stage, |stage|);
    }
  }

  lemma {:induction false} PlanCounts(blocks: map<nat, Block>, planned: seq<nat>, n: nat)
    requires n <= |planned|
    ensures Total(planned[..n], InstancesOf(blocks)) == PlanSum(blocks, planned, IntegerValue(), n)
    ensures Total(planned[..n], UnknownOf(blocks)) == PlanSum(blocks, planned, OneIfUnknown(), n)
  {
    if n > 0 {
      PlanCounts(blocks, planned, n - 1);
      assert planned[..n][..n - 1] == planned[..n - 1];
      var stages := Lookup(blocks, planned[n - 1]).stages;
      assert stages[..|stages|] == stages;
      AttemptsCount(stages, |stages|);
    }
  }

  /** The version 1 summary counts the planned jobs by status, and adds up the request counts of all attempts. */
  lemma SummaryCounts(blocks: map<nat, Block>, planned: seq<nat>, keys: seq<string>)
    requires Distinct(planned) && Distinct(keys)
    ensures var s := Version1(blocks, planned, keys);
      && s.planned == |Jobs(blocks, planned, keys, Planned)|
      && s.completed == |Jobs(blocks, planned, keys, Completed)|
      && s.failed == |Jobs(blocks, planned, keys, Failed)|
      && s.total == |planned| * |keys| && s.remaining == s.total - s.completed
      && s.known == PlanSum(blocks, planned, IntegerValue(), |planned|)
      && s.unknown == PlanSum(blocks, planned, OneIfUnknown(), |planned|)
  {
    hide Recount, Jobs;
    RecountCountsJobs(blocks, planned, keys, Planned);
    RecountCountsJobs(blocks, planned, keys, Completed);
    RecountCountsJobs(blocks, planned, keys, Failed);
    assert planned[..|planned|] == planned;
    PlanCounts(blocks, planned, |planned|);
  }
}
