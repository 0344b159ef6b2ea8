/** The dense event run: resuming from its checkpoint, collecting in a pool, and assembling the rows, with a
    crash possible between any two steps. */
module DenseRun {
  import opened SortedSets

  type Data(==, !new, 0)

  /** A block's source and oracle rows, as one value. */
  datatype Row = Row(block: nat, data: Data)

  datatype Record = Record(fingerprint: string, row: Row)

  /** What `process_block` computes for a block under the code and inputs of a fingerprint. */
  type Process = (string, nat) -> Row

  ghost predicate KeepsBlock(process: Process) {
    forall fp, b :: process(fp, b).block == b
  }

  /** One invocation: the fingerprint, the event's bounds and the wanted blocks. */
  datatype Job = Job(fingerprint: string, start: nat, end: nat, wanted: seq<nat>)

  datatype Ending = Crashed | OutOfBounds | NothingWanted | Rows(rows: seq<Row>)

  /** The serial reference: every wanted block once, in ascending order. */
  function SerialRows(process: Process, fingerprint: string, blocks: seq<nat>): (rows: seq<Row>)
    ensures |rows| == |blocks| && forall i :: 0 <= i < |blocks| ==> rows[i] == process(fingerprint, blocks[i])
  {
    seq(|blocks|, i requires 0 <= i < |blocks| => process(fingerprint, blocks[i]))
  }

  function Expected(process: Process, job: Job): Ending {
    if job.wanted == [] then NothingWanted
    else if exists b :: b in job.wanted && (b < job.start || b > job.end) then OutOfBounds
    else Rows(SerialRows(process, job.fingerprint, SortedSet(job.wanted)))
  }

  /** The rows come out in strictly ascending block order, so the final sorts change nothing. */
  lemma SerialRowsAreSorted(process: Process, job: Job)
    requires KeepsBlock(process)
    ensures var rows := SerialRows(process, job.fingerprint, SortedSet(job.wanted));
      forall i, j :: 0 <= i < j < |rows| ==> rows[i].block < rows[j].block
  {
  }

  /** A run has rows exactly if something is wanted and all of it lies within the event; they are then one row for each
      wanted block and no other, by ascending block. */
  lemma RowsAreTheWanted(process: Process, job: Job)
    requires KeepsBlock(process)
    ensures Expected(process, job).Rows? <==>
      job.wanted != [] && forall b :: b in job.wanted ==> job.start <= b <= job.end
    ensures Expected(process, job).NothingWanted? <==> job.wanted == []
    ensures Expected(process, job).Rows? ==>
      var rows := Expected(process, job).rows;
      && (forall b: nat :: b in job.wanted <==> exists i :: 0 <= i < |rows| && rows[i].block == b)
      && (forall i :: 0 <= i < |rows| ==> rows[i] == process(job.fingerprint, rows[i].block))
      && forall i, j :: 0 <= i < j < |rows| ==> rows[i].block < rows[j].block
  {
    var wanted := SortedSet(job.wanted);
    var rows := SerialRows(process, job.fingerprint, wanted);
    forall b: nat | b in job.wanted
      ensures exists i :: 0 <= i < |rows| && rows[i].block == b
    {
      var i :| 0 <= i < |wanted| && wanted[i] == b;
      assert rows[i].block == b;
    }
    forall i | 0 <= i < |rows|
      ensures rows[i].block in job.wanted
    {
      assert wanted[i] in wanted;
    }
  }

  class DenseRunner {
    const process: Process
    /** The checkpoint file, replaced atomically; an absent file is an empty map. */
    var checkpoint: map<nat, Record>

    constructor (process: Process)
      requires KeepsBlock(process)
      ensures this.process == process && Genuine() && checkpoint == map[]
    {
      this.process := process;
      checkpoint := map[];
    }

    /** Every record holds what processing its block under its own fingerprint yields. */
    ghost predicate Genuine()
      reads this
    {
      KeepsBlock(process) && forall b :: b in checkpoint ==>
        checkpoint[b].row == process(checkpoint[b].fingerprint, b)
    }

    /** The records that a resumed run accepts; `intact` says whose artifacts are still there unchanged. */
    ghost predicate Accepts(job: Job, intact: nat -> bool, b: nat)
      reads this
    {
      b in checkpoint && b in job.wanted && checkpoint[b].fingerprint == job.fingerprint && intact(b)
    }

    /** The resume scan over the checkpoint. */
    method Resume(job: Job, intact: nat -> bool) returns (completed: map<nat, Record>)
      ensures forall b :: b in completed <==>
        b in checkpoint && b in job.wanted && checkpoint[b].fingerprint == job.fingerprint && intact(b)
      ensures forall b :: b in completed ==> b in checkpoint && completed[b] == checkpoint[b]
    {
      completed := map[];
      var keys: set<nat> := checkpoint.Keys;
      while keys != {}
        invariant keys <= checkpoint.Keys
        invariant forall b :: b in completed <==> b !in keys && Accepts(job, intact, b)
        invariant forall b :: b in completed ==> b in checkpoint && completed[b] == checkpoint[b]
      {
        var b :| b in keys;
        if b in job.wanted && checkpoint[b].fingerprint == job.fingerprint && intact(b) {
          completed := completed[b := checkpoint[b]];
        }
        keys := keys - {b};
      }
    }

    /** `run_dense_event`: in whatever order the pool completes, and wherever a crash stops it, the checkpoint stays
        genuine, no accepted record is lost, and a run that finishes yields the serial rows. */
    method RunEvent(job: Job, intact: nat -> bool) returns (ending: Ending)
      requires Genuine()
      modifies this`checkpoint
      ensures Genuine()
      ensures ending != Crashed ==> ending == Expected(process, job)
      ensures forall b :: old(Accepts(job, intact, b)) ==> b in checkpoint && checkpoint[b] == old(checkpoint)[b]
      ensures checkpoint == old(checkpoint)
        || forall b :: b in checkpoint ==> b in job.wanted && checkpoint[b].fingerprint == job.fingerprint
    {
      if job.wanted == [] {
        return NothingWanted;
      }
      if exists b :: b in job.wanted && (b < job.start || b > job.end) {
        return OutOfBounds;
      }
      var wanted := SortedSet(job.wanted);
      var completed := Resume(job, intact);
      var crashed: bool;
      crashed, completed := RunPool(job, wanted, completed);
      if crashed {
        return Crashed;
      }
      var rows := AssembleRows(process, job.fingerprint, wanted, completed);
      ending := Rows(rows);
    }

    /** The pool: pending blocks complete in any order, each followed by a rewrite of the checkpoint. */
    method RunPool(job: Job, wanted: seq<nat>, resumed: map<nat, Record>)
      returns (crashed: bool, completed: map<nat, Record>)
      requires Genuine() && forall b :: b in wanted <==> b in job.wanted
      requires forall b :: b in resumed ==>
        b in wanted && resumed[b] == Record(job.fingerprint, process(job.fingerprint, b))
      modifies this`checkpoint
      ensures Genuine()
      ensures forall b :: b in completed ==>
        b in wanted && completed[b] == Record(job.fingerprint, process(job.fingerprint, b))
      ensures forall b :: b in resumed ==> b in completed
      ensures checkpoint == old(checkpoint)
        || ((forall b :: b in resumed ==> b in checkpoint)
            && forall b :: b in checkpoint ==> b in completed && checkpoint[b] == completed[b])
      ensures !crashed ==> forall b :: b in wanted ==> b in completed
    {
      completed := resumed;
      crashed := false;
      var pending := set b | b in wanted && b !in completed;
      while pending != {}
        invariant Genuine()
        invariant forall b :: b in wanted <==> b in pending || b in completed
        invariant forall b :: b in completed ==> completed[b] == Record(job.fingerprint, process(job.fingerprint, b))
        invariant forall b :: b in resumed ==> b in completed
        invariant checkpoint == old(checkpoint) || checkpoint == completed
      {
        var crash: bool := *;
        if crash {
          return true, completed;
        }
        var next: nat :| next in pending;
        var row := process(job.fingerprint, next);
        completed := completed[row.block := Record(job.fingerprint, row)];
        pending := pending - {next};
        crash := *;
        if crash {
          return true, completed;
        }
        checkpoint := completed;
      }
    }
  }

  /** The final row lists. */
  method AssembleRows(process: Process, fingerprint: string, wanted: seq<nat>, completed: map<nat, Record>)
    returns (rows: seq<Row>)
    requires forall b :: b in wanted ==> b in completed && completed[b].row == process(fingerprint, b)
    ensures rows == SerialRows(process, fingerprint, wanted)
  {
    rows := [];
    for i := 0 to |wanted|
      invariant |rows| == i && forall j :: 0 <= j < i ==> rows[j] == process(fingerprint, wanted[j])
    {
      assert wanted[i] in wanted;
      rows := rows + [completed[wanted[i]].row];
    }
  }

  /** Any sequence of invocations over one checkpoint file, crashed ones among them, with code changes and changing
      wishes in between: whatever finishes yields the serial rows of its own job. */
  method RunEvents(process: Process, jobs: seq<Job>, intact: (nat, nat) -> bool) returns (endings: seq<Ending>)
    requires KeepsBlock(process)
    ensures |endings| == |jobs|
    ensures forall i :: 0 <= i < |jobs| ==> endings[i] == Crashed || endings[i] == Expected(process, jobs[i])
  {
    var runner := new DenseRunner(process);
    endings := [];
    for i := 0 to |jobs|
      invariant fresh(runner) && runner.process == process && runner.Genuine() && |endings| == i
      invariant forall j :: 0 <= j < i ==> endings[j] == Crashed || endings[j] == Expected(process, jobs[j])
    {
      var ending := runner.RunEvent(jobs[i], (b: nat) => intact(i, b));
      endings := endings + [ending];
    }
  }
}
