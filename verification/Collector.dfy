/** The concurrent state collector as a step system: what every run keeps, in every completion order, and the
    loops that only take its steps. */
module Collector {
  import opened Lists
  import opened Market

  // ---------------------------------------------------------------- attempt histories

  datatype Attempt = InProgress | Completed(requests: Option<nat>) | Failed

  /** A block's `aggregate_state` row; an old row may lack its attempt list. */
  datatype Stage = NoStage | Stage(last: Attempt, attempts: Option<seq<Attempt>>)

  function History(stage: Stage): seq<Attempt> {
    match stage
    case NoStage => []
    case Stage(last, None) => [last]
    case Stage(_, Some(attempts)) => attempts
  }

  function Begin(stage: Stage): Stage {
    Stage(InProgress, Some(History(stage) + [InProgress]))
  }

  function Record(stage: Stage, result: Attempt): Stage {
    var h := History(stage);
    var settled := if h != [] && h[|h| - 1] == InProgress then h[..|h| - 1] else h;
    Stage(result, Some(settled + [result]))
  }

  /** Recording what was begun adds exactly one attempt: earlier ones, interrupted ones included, stay. */
  lemma OneAttemptIsAdded(stage: Stage, result: Attempt)
    ensures History(Record(Begin(stage), result)) == History(stage) + [result]
  {
    assert (History(stage) + [InProgress])[..|History(stage)|] == History(stage);
  }

  /** Row by row: an attempt list is extended, and an old row without one becomes its first attempt. */
  lemma RowsAreExtended(stage: Stage, result: Attempt)
    ensures Record(Begin(stage), result) ==
      match stage
      case NoStage => Stage(result, Some([result]))
      case Stage(last, None) => Stage(result, Some([last, result]))
      case Stage(_, Some(attempts)) => Stage(result, Some(attempts + [result]))
  {
    var earlier := History(stage);
    assert (earlier + [InProgress])[..|earlier|] == earlier;
    assert stage.NoStage? ==> earlier + [result] == [result];
    assert stage.Stage? && stage.attempts.None? ==> earlier + [result] == [stage.last, result];
  }

  // ---------------------------------------------------------------- the step system

  /** Positions refer to the plan. A skip may load the block's saved report. */
  datatype Event = Skip(i: nat, loaded: bool) | Stop(i: nat) | Submit(i: nat) | Finish(i: nat, result: Attempt)

  /** `ready` is what a completed block's row must show besides: identities, block hash and artifacts that are there. */
  datatype Setup = Setup(
    plan: seq<nat>, workers: nat, limit: Option<nat>, stages: map<nat, Stage>, ready: (nat, Stage) -> bool)

  datatype State = State(
    cursor: nat, processed: nat, active: set<nat>, stopped: Option<nat>, seed: Option<nat>,
    seeds: map<nat, Option<nat>>,
    skipped: seq<nat>, submitted: seq<nat>, finished: seq<nat>, stages: map<nat, Stage>)

  function StageOf(stages: map<nat, Stage>, number: nat): Stage {
    if number in stages then stages[number] else NoStage
  }

  function Start(su: Setup): State {
    State(0, 0, {}, None, None, map[], [], [], [], su.stages)
  }

  /** The guard of `next_pending`, inside the submission loop of the pool or before the bootstrap job. */
  predicate MayTake(su: Setup, s: State, i: nat) {
    && i == s.cursor && i < |su.plan|
    && s.stopped.None?
    && (su.limit.Some? ==> s.processed < su.limit.value)
    && |s.active| < su.workers
    && (s.submitted == [] || s.finished != [])
  }

  predicate IsReady(su: Setup, stages: map<nat, Stage>, number: nat) {
    var stage := StageOf(stages, number);
    stage.Stage? && stage.last.Completed? && su.ready(number, stage)
  }

  predicate Allowed(su: Setup, s: State, e: Event) {
    match e
    case Skip(i, _) => MayTake(su, s, i) && IsReady(su, s.stages, su.plan[i])
    case Stop(i) => MayTake(su, s, i) && !IsReady(su, s.stages, su.plan[i])
    case Submit(i) => MayTake(su, s, i) && !IsReady(su, s.stages, su.plan[i])
    case Finish(i, result) => i in s.active && i < |su.plan| && result != InProgress
  }

  function Newer(seed: Option<nat>, number: nat): Option<nat> {
    if seed.None? || number > seed.value then Some(number) else seed
  }

  /** The bootstrap job, the first to be recorded, sets the seed outright; a later one only when it is newer. */
  function SeedAfter(s: State, number: nat): Option<nat> {
    if s.finished == [] then Some(number) else Newer(s.seed, number)
  }

  function Apply(su: Setup, s: State, e: Event): State
    requires Allowed(su, s, e)
  {
    match e
    case Skip(i, loaded) =>
      s.(cursor := i + 1, skipped := s.skipped + [i], seed := if loaded then Some(su.plan[i]) else s.seed)
    case Stop(i) => s.(cursor := i + 1, stopped := Some(i))
    case Submit(i) =>
      s.(cursor := i + 1, processed := s.processed + 1, active := s.active + {i}, submitted := s.submitted + [i],
         seeds := s.seeds[i := s.seed],
         stages := s.stages[su.plan[i] := Begin(StageOf(s.stages, su.plan[i]))])
    case Finish(i, result) =>
      s.(active := s.active - {i}, finished := s.finished + [i],
         seed := if result.Completed? then SeedAfter(s, su.plan[i]) else s.seed,
         stages := s.stages[su.plan[i] := Record(StageOf(s.stages, su.plan[i]), result)])
  }

  /** The state after a sequence of steps, or None where some step was not allowed. */
  function Run(su: Setup, events: seq<Event>): Option<State> {
    if events == [] then Some(Start(su))
    else match Run(su, events[..|events| - 1])
      case None => None
      case Some(s) => if Allowed(su, s, events[|events| - 1]) then Some(Apply(su, s, events[|events| - 1])) else None
  }

  // ---------------------------------------------------------------- what every run keeps

  /** Positions below the cursor are skipped, submitted or stopped, each once; the active ones are the submitted
      ones that have not finished. */
  ghost predicate Accounted(su: Setup, s: State) {
    && s.cursor <= |su.plan|
    && Distinct(s.skipped) && Distinct(s.submitted) && Distinct(s.finished)
    && (forall i: nat :: i < s.cursor <==> i in s.skipped || i in s.submitted || s.stopped == Some(i))
    && (forall i :: i in s.skipped ==> i !in s.submitted && s.stopped != Some(i))
    && (forall i :: i in s.submitted ==> s.stopped != Some(i))
    && (forall i :: i in s.submitted <==> i in s.active || i in s.finished)
    && (forall i :: i in s.active ==> i !in s.finished)
  }

  ghost predicate Bounded(su: Setup, s: State) {
    && |s.active| <= su.workers
    && s.processed == |s.submitted|
    && s.cursor == |s.skipped| + |s.submitted| + (if s.stopped.Some? then 1 else 0)
    && (su.limit.Some? ==> s.processed <= su.limit.value)
    && (|s.submitted| > 1 ==> s.finished != [])
    && (s.active == {} && s.submitted != [] ==> s.finished != [])
  }

  lemma {:induction false} RunsAreAccounted(su: Setup, events: seq<Event>)
    requires Run(su, events).Some?
    ensures Accounted(su, Run(su, events).value)
    decreases |events|
  {
    if events != [] {
      RunsAreAccounted(su, events[..|events| - 1]);
      assert Allowed(su, Run(su, events[..|events| - 1]).value, events[|events| - 1]);
      StepKeepsAccounts(su, Run(su, events[..|events| - 1]).value, events[|events| - 1]);
    }
  }

  lemma StepKeepsAccounts(su: Setup, s: State, e: Event)
    requires Accounted(su, s) && Allowed(su, s, e)
    ensures Accounted(su, Apply(su, s, e))
  {
    match e {
      case Skip(i, _) => SkipKeepsAccounts(su, s, e);
      case Submit(i) => SubmitKeepsAccounts(su, s, e);
      case Finish(i, _) => FinishKeepsAccounts(su, s, e);
      case Stop(_) =>
    }
  }

  lemma SkipKeepsAccounts(su: Setup, s: State, e: Event)
    requires e.Skip? && Accounted(su, s) && Allowed(su, s, e)
    ensures Accounted(su, Apply(su, s, e))
  {
    hide Distinct;
    AppendDistinct(s.skipped, e.i);
  }

  lemma SubmitKeepsAccounts(su: Setup, s: State, e: Event)
    requires e.Submit? && Accounted(su, s) && Allowed(su, s, e)
    ensures Accounted(su, Apply(su, s, e))
  {
    hide Distinct;
    AppendDistinct(s.submitted, e.i);
  }

  lemma FinishKeepsAccounts(su: Setup, s: State, e: Event)
    requires e.Finish? && Accounted(su, s) && Allowed(su, s, e)
    ensures Accounted(su, Apply(su, s, e))
  {
    hide Distinct;
    AppendDistinct(s.finished, e.i);
  }

  /** The pool never exceeds its workers, the consumed prefix of the plan is counted exactly, submissions never exceed
      the run limit, and no second job starts before the bootstrap job is recorded. */
  lemma {:induction false} RunsAreBounded(su: Setup, events: seq<Event>)
    requires Run(su, events).Some?
    ensures Bounded(su, Run(su, events).value)
    decreases |events|
  {
    if events != [] {
      RunsAreBounded(su, events[..|events| - 1]);
      RunsAreAccounted(su, events[..|events| - 1]);
      var s := Run(su, events[..|events| - 1]).value;
      var e := events[|events| - 1];
      if e.Submit? {
        assert e.i !in s.active;
      }
    }
  }

  ghost predicate Increasing(plan: seq<nat>) {
    forall i, j :: 0 <= i < j < |plan| ==> plan[i] < plan[j]
  }

  /** The seed is a block of the plan before the cursor. */
  ghost predicate Passed(su: Setup, cursor: nat, seed: Option<nat>) {
    seed.Some? ==> exists i :: 0 <= i < cursor <= |su.plan| && seed.value == su.plan[i]
  }

  lemma PassedBelow(su: Setup, cursor: nat, seed: Option<nat>, i: nat)
    requires Increasing(su.plan) && Passed(su, cursor, seed) && cursor <= i + 1 <= |su.plan|
    ensures seed.Some? ==> seed.value <= su.plan[i]
    ensures seed.Some? && cursor <= i ==> seed.value < su.plan[i]
  {
  }

  lemma PassedLater(su: Setup, cursor: nat, seed: Option<nat>, later: nat)
    requires Passed(su, cursor, seed) && cursor <= later <= |su.plan|
    ensures Passed(su, later, seed)
  {
  }

  /** The seed comes from a block already passed, and so does every seed handed to a job. */
  ghost predicate SeedsComeFirst(su: Setup, s: State) {
    && (s.finished == [] ==> forall i :: i in s.active ==> s.cursor == i + 1)
    && Passed(su, s.cursor, s.seed)
    && (forall i :: i in s.seeds ==> i < s.cursor <= |su.plan| && (s.seeds[i].Some? ==> s.seeds[i].value < su.plan[i]))
  }

  lemma {:induction false} JobsAreSeededByEarlierBlocks(su: Setup, events: seq<Event>)
    requires Increasing(su.plan) && Run(su, events).Some?
    ensures SeedsComeFirst(su, Run(su, events).value)
    decreases |events|
  {
    if events != [] {
      JobsAreSeededByEarlierBlocks(su, events[..|events| - 1]);
      RunsAreAccounted(su, events[..|events| - 1]);
      SeedStep(su, Run(su, events[..|events| - 1]).value, events[|events| - 1]);
    }
  }

  lemma ActiveArePassed(su: Setup, s: State)
    requires Accounted(su, s)
    ensures s.cursor <= |su.plan| && (forall i :: i in s.active ==> i < s.cursor)
    ensures s.submitted == [] ==> s.active == {}
  {
    forall i | i in s.active ensures i in s.submitted && i < s.cursor {
    }
  }

  lemma SeedStep(su: Setup, s: State, e: Event)
    requires Increasing(su.plan) && SeedsComeFirst(su, s) && Accounted(su, s) && Allowed(su, s, e)
    ensures SeedsComeFirst(su, Apply(su, s, e))
    ensures s.seed.Some? ==> Apply(su, s, e).seed.Some? && s.seed.value <= Apply(su, s, e).seed.value
  {
    ActiveArePassed(su, s);
    hide Accounted, Begin, Record, Passed, Increasing;
    var after := Apply(su, s, e);
    PassedLater(su, s.cursor, s.seed, after.cursor);
    OwnBlockIsPassed(su, after.cursor, e.i);
    if !e.Finish? || s.finished == [] {
      PassedBelow(su, s.cursor, s.seed, e.i);
    }
  }

  lemma OwnBlockIsPassed(su: Setup, cursor: nat, i: nat)
    requires i < cursor <= |su.plan|
    ensures Passed(su, cursor, Some(su.plan[i]))
  {
  }

  /** The shared seed's block number never decreases, over any stretch of any run of an increasing plan. */
  lemma {:induction false} SeedNeverDecreases(su: Setup, events: seq<Event>, n: nat)
    requires Increasing(su.plan) && Run(su, events).Some? && n <= |events|
    ensures Run(su, events[..n]).Some?
    ensures var early, late := Run(su, events[..n]).value.seed, Run(su, events).value.seed;
      early.Some? ==> late.Some? && early.value <= late.value
    decreases |events|
  {
    if n == |events| {
      assert events[..n] == events;
    } else {
      var front := events[..|events| - 1];
      assert front[..n] == events[..n];
      SeedNeverDecreases(su, front, n);
      JobsAreSeededByEarlierBlocks(su, front);
      RunsAreAccounted(su, front);
      SeedStep(su, Run(su, front).value, events[|events| - 1]);
    }
  }

  /** The greatest block whose report the run has at hand: loaded for a ready block, or returned by a job. */
  function Newest(plan: seq<nat>, events: seq<Event>): Option<nat> {
    if events == [] then None
    else
      var earlier := Newest(plan, events[..|events| - 1]);
      match events[|events| - 1]
      case Skip(i, true) => if i < |plan| then Greater(earlier, plan[i]) else earlier
      case Finish(i, Completed(_)) => if i < |plan| then Greater(earlier, plan[i]) else earlier
      case _ => earlier
  }

  function Greater(a: Option<nat>, b: nat): Option<nat> {
    if a.Some? && a.value > b then a else Some(b)
  }

  /** The seed is always the newest report at hand, and each job is given the newest one of its time. */
  lemma {:induction false} SeedIsNewest(su: Setup, events: seq<Event>)
    requires Increasing(su.plan) && Run(su, events).Some?
    ensures Run(su, events).value.seed == Newest(su.plan, events)
    ensures forall n :: 0 <= n < |events| && events[n].Submit? ==>
      var seeds := Run(su, events).value.seeds;
      events[n].i in seeds && seeds[events[n].i] == Newest(su.plan, events[..n])
    decreases |events|
  {
    if events != [] {
      var front, e := events[..|events| - 1], events[|events| - 1];
      SeedIsNewest(su, front);
      JobsAreSeededByEarlierBlocks(su, front);
      RunsAreAccounted(su, front);
      var s := Run(su, front).value;
      NewestStep(su, s, front, e);
      forall n | 0 <= n < |events| && events[n].Submit?
        ensures var seeds := Apply(su, s, e).seeds;
          events[n].i in seeds && seeds[events[n].i] == Newest(su.plan, events[..n])
      {
        if n < |front| {
          assert front[n] == events[n] && front[..n] == events[..n];
          SeedsStay(su, s, e, events[n].i);
        }
      }
    }
  }

  lemma NewestStep(su: Setup, s: State, front: seq<Event>, e: Event)
    requires Increasing(su.plan) && SeedsComeFirst(su, s) && Accounted(su, s) && Allowed(su, s, e)
    requires s.seed == Newest(su.plan, front)
    ensures Apply(su, s, e).seed == Newest(su.plan, front + [e])
    ensures e.Submit? ==> e.i in Apply(su, s, e).seeds && Apply(su, s, e).seeds[e.i] == Newest(su.plan, front)
  {
    assert (front + [e])[..|front|] == front;
    ActiveArePassed(su, s);
    if !e.Finish? || s.finished == [] {
      PassedBelow(su, s.cursor, s.seed, e.i);
    }
    hide Accounted, Begin, Record, Passed, Increasing;
  }

  lemma SeedsStay(su: Setup, s: State, e: Event, i: nat)
    requires SeedsComeFirst(su, s) && Allowed(su, s, e) && i in s.seeds
    ensures i in Apply(su, s, e).seeds && Apply(su, s, e).seeds[i] == s.seeds[i]
  {
  }

  /** Each block's attempts are those it had, plus its own: one in progress while active, one result after. */
  ghost predicate AttemptsGrow(su: Setup, s: State) {
    forall i :: 0 <= i < |su.plan| ==> AttemptsOf(su, s, i)
  }

  ghost predicate AttemptsOf(su: Setup, s: State, i: nat)
    requires i < |su.plan|
  {
    var before, now := History(StageOf(su.stages, su.plan[i])), History(StageOf(s.stages, su.plan[i]));
    && (i in s.active ==>
          now == before + [InProgress] && StageOf(s.stages, su.plan[i]) == Begin(StageOf(su.stages, su.plan[i])))
    && (i in s.finished ==> exists result :: result != InProgress && now == before + [result])
    && (i !in s.submitted ==> StageOf(s.stages, su.plan[i]) == StageOf(su.stages, su.plan[i]))
  }

  lemma {:induction false} EachJobAddsOneAttempt(su: Setup, events: seq<Event>)
    requires Distinct(su.plan) && Run(su, events).Some?
    ensures AttemptsGrow(su, Run(su, events).value)
    decreases |events|
  {
    if events != [] {
      var front := events[..|events| - 1];
      EachJobAddsOneAttempt(su, front);
      RunsAreAccounted(su, front);
      AttemptStep(su, Run(su, front).value, events[|events| - 1]);
    }
  }

  lemma AttemptStep(su: Setup, s: State, e: Event)
    requires Distinct(su.plan) && AttemptsGrow(su, s) && Accounted(su, s) && Allowed(su, s, e)
    ensures AttemptsGrow(su, Apply(su, s, e))
  {
    hide AttemptsOf;
    forall i | 0 <= i < |su.plan| ensures AttemptsOf(su, Apply(su, s, e), i) {
      if i == e.i {
        OwnAttempt(su, s, e);
      } else {
        OtherAttempts(su, s, e, i);
      }
    }
  }

  lemma OtherAttempts(su: Setup, s: State, e: Event, i: nat)
    requires Distinct(su.plan) && Allowed(su, s, e)
    requires i < |su.plan| && i != e.i && AttemptsOf(su, s, i)
    ensures AttemptsOf(su, Apply(su, s, e), i)
  {
    hide History, Begin, Record;
    assert e.i < |su.plan| && su.plan[i] != su.plan[e.i];
  }

  lemma OwnAttempt(su: Setup, s: State, e: Event)
    requires Accounted(su, s) && Allowed(su, s, e)
    requires e.i < |su.plan| && AttemptsOf(su, s, e.i)
    ensures AttemptsOf(su, Apply(su, s, e), e.i)
  {
    if e.Finish? {
      OwnFinish(su, s, e);
    } else {
      hide Distinct;
      assert e.i !in s.submitted && e.i !in s.active && e.i !in s.finished;
    }
  }

  lemma OwnFinish(su: Setup, s: State, e: Event)
    requires Accounted(su, s) && Allowed(su, s, e) && e.Finish?
    requires e.i < |su.plan| && AttemptsOf(su, s, e.i)
    ensures AttemptsOf(su, Apply(su, s, e), e.i)
  {
    hide Begin, Record, History, Distinct;
    OneAttemptIsAdded(StageOf(su.stages, su.plan[e.i]), e.result);
    assert e.i in s.submitted;
  }

  /** Over a plan of different blocks, a block that is ready at the start is skipped and no other is. */
  ghost predicate SkipsTheReady(su: Setup, s: State) {
    && (forall i :: i in s.skipped ==> i < |su.plan| && IsReady(su, su.stages, su.plan[i]))
    && (forall i :: i in s.submitted ==> i < |su.plan| && !IsReady(su, su.stages, su.plan[i]))
    && (s.stopped.Some? ==> s.stopped.value < |su.plan| && !IsReady(su, su.stages, su.plan[s.stopped.value]))
  }

  lemma {:induction false} ReadyAreSkipped(su: Setup, events: seq<Event>)
    requires Distinct(su.plan) && Run(su, events).Some?
    ensures SkipsTheReady(su, Run(su, events).value)
    decreases |events|
  {
    if events != [] {
      var front, e := events[..|events| - 1], events[|events| - 1];
      ReadyAreSkipped(su, front);
      RunsAreAccounted(su, front);
      EachJobAddsOneAttempt(su, front);
      SkipStep(su, Run(su, front).value, e);
    }
  }

  lemma SkipStep(su: Setup, s: State, e: Event)
    requires SkipsTheReady(su, s) && Accounted(su, s) && AttemptsGrow(su, s) && Allowed(su, s, e)
    ensures SkipsTheReady(su, Apply(su, s, e))
  {
    hide Distinct, Begin, Record, History;
    if !e.Finish? {
      assert e.i !in s.submitted;
      assert AttemptsOf(su, s, e.i);
    }
  }

  /** A run over a plan of different blocks that ends without an active job, a stop or a reached limit leaves each block
      ready from the start or with a result of its own. */
  lemma CompleteRunsCover(su: Setup, events: seq<Event>, i: nat)
    requires Distinct(su.plan) && Run(su, events).Some? && i < |su.plan|
    requires var s := Run(su, events).value;
      && s.active == {} && NothingLeft(su, s) && s.stopped.None?
      && (su.limit.Some? ==> |s.submitted| < su.limit.value)
    ensures var before, after := StageOf(su.stages, su.plan[i]), StageOf(Run(su, events).value.stages, su.plan[i]);
      if IsReady(su, su.stages, su.plan[i]) then after == before
      else exists result :: result != InProgress && History(after) == History(before) + [result]
  {
    var s := Run(su, events).value;
    RunsAreAccounted(su, events);
    RunsAreBounded(su, events);
    ReadyAreSkipped(su, events);
    EachJobAddsOneAttempt(su, events);
    hide Run, Distinct, History;
    assert AttemptsOf(su, s, i) && i < s.cursor;
    assert i in s.skipped || i in s.submitted;
  }

  // ---------------------------------------------------------------- restarts

  /** One invocation: its selection, and the steps that it took before it returned or was killed. */
  datatype Invocation = Invocation(
    plan: seq<nat>, workers: nat, limit: Option<nat>, ready: (nat, Stage) -> bool, events: seq<Event>)

  /** What an invocation made of a block: nothing, an attempt that was still in progress, or a recorded result. */
  function Outcome(plan: seq<nat>, events: seq<Event>, number: nat): seq<Attempt> {
    if events == [] then []
    else
      match events[|events| - 1]
      case Submit(i) =>
        if i < |plan| && plan[i] == number then [InProgress] else Outcome(plan, events[..|events| - 1], number)
      case Finish(i, result) =>
        if i < |plan| && plan[i] == number then [result] else Outcome(plan, events[..|events| - 1], number)
      case _ => Outcome(plan, events[..|events| - 1], number)
  }

  /** Cut off anywhere, a run has added to the history of each block what its last step on that block says. */
  lemma {:induction false} RunAddsItsOutcome(su: Setup, events: seq<Event>, number: nat)
    requires Distinct(su.plan) && Run(su, events).Some?
    ensures History(StageOf(Run(su, events).value.stages, number)) ==
      History(StageOf(su.stages, number)) + Outcome(su.plan, events, number)
    decreases |events|
  {
    if events != [] {
      var front, e := events[..|events| - 1], events[|events| - 1];
      RunAddsItsOutcome(su, front, number);
      RunsAreAccounted(su, front);
      EachJobAddsOneAttempt(su, front);
      OutcomeStep(su, Run(su, front).value, e, number);
    }
  }

  lemma OutcomeStep(su: Setup, s: State, e: Event, number: nat)
    requires Accounted(su, s) && AttemptsGrow(su, s) && Allowed(su, s, e)
    ensures var was, now := StageOf(su.stages, number), StageOf(Apply(su, s, e).stages, number);
      if (e.Submit? || e.Finish?) && su.plan[e.i] == number
      then History(now) == History(was) + [if e.Submit? then InProgress else e.result]
      else now == StageOf(s.stages, number)
  {
    hide Distinct, Begin, Record;
    if (e.Submit? || e.Finish?) && su.plan[e.i] == number {
      assert AttemptsOf(su, s, e.i);
      if e.Submit? {
        assert e.i !in s.submitted;
        BeginAddsOne(StageOf(su.stages, number));
      } else {
        OneAttemptIsAdded(StageOf(su.stages, number), e.result);
      }
    }
  }

  lemma BeginAddsOne(stage: Stage)
    ensures History(Begin(stage)) == History(stage) + [InProgress]
  {
  }

  function SetupOf(v: Invocation, stages: map<nat, Stage>): Setup {
    Setup(v.plan, v.workers, v.limit, stages, v.ready)
  }

  /** The rows that a series of invocations leaves: each one starts from those of the one before it. */
  function Left(stages: map<nat, Stage>, vs: seq<Invocation>): map<nat, Stage> {
    if vs == [] then stages
    else
      var before, v := Left(stages, vs[..|vs| - 1]), vs[|vs| - 1];
      match Run(SetupOf(v, before), v.events) case None => before case Some(s) => s.stages
  }

  /** Each invocation took steps of the system, on a selection without repeats. */
  ghost predicate Possible(stages: map<nat, Stage>, vs: seq<Invocation>) {
    vs != [] ==>
      var front, v := vs[..|vs| - 1], vs[|vs| - 1];
      Possible(stages, front) && Distinct(v.plan) && Run(SetupOf(v, Left(stages, front)), v.events).Some?
  }

  function Outcomes(vs: seq<Invocation>, number: nat): seq<Attempt> {
    if vs == [] then []
    else Outcomes(vs[..|vs| - 1], number) + Outcome(vs[|vs| - 1].plan, vs[|vs| - 1].events, number)
  }

  /** Over any series of invocations, killed at any point and restarted with any selection, a block's history is what it
      was with one attempt for each invocation that took it up: none is lost or overwritten, interrupted ones
      included. */
  lemma {:induction false} RestartsKeepEveryAttempt(stages: map<nat, Stage>, vs: seq<Invocation>, number: nat)
    requires Possible(stages, vs)
    ensures History(StageOf(Left(stages, vs), number)) == History(StageOf(stages, number)) + Outcomes(vs, number)
    decreases |vs|
  {
    hide Run, History, StageOf, Outcome, Distinct;
    if vs != [] {
      var front, v := vs[..|vs| - 1], vs[|vs| - 1];
      RestartsKeepEveryAttempt(stages, front, number);
      RunAddsItsOutcome(SetupOf(v, Left(stages, front)), v.events, number);
    }
  }

  // ---------------------------------------------------------------- the loops

  lemma OneMoreStep(su: Setup, events: seq<Event>, s: State, e: Event)
    requires Run(su, events) == Some(s) && Allowed(su, s, e)
    ensures Run(su, events + [e]) == Some(Apply(su, s, e))
  {
    assert (events + [e])[..|events|] == events;
  }

  predicate LimitReached(su: Setup, s: State) {
    su.limit.Some? && s.processed >= su.limit.value
  }

  predicate NothingLeft(su: Setup, s: State) {
    s.stopped.Some? || LimitReached(su, s) || s.cursor >= |su.plan|
  }

  /** `next_pending` with the `begin` that its caller runs at once: skips what is ready, and stops scheduling
      where the disk is low. Free space is arbitrary. */
  method NextPending(su: Setup, s: State, events: seq<Event>)
    returns (pending: Option<nat>, s': State, events': seq<Event>)
    requires Run(su, events) == Some(s) && |s.active| < su.workers && (s.submitted == [] || s.finished != [])
    ensures Run(su, events') == Some(s')
    ensures pending.None? ==>
      NothingLeft(su, s') && s'.active == s.active && s'.submitted == s.submitted && s'.finished == s.finished
    ensures pending.Some? ==> s'.active == s.active + {pending.value} && pending.value < |su.plan|
    ensures pending.Some? ==> s'.submitted == s.submitted + [pending.value] && s'.finished == s.finished
    ensures pending.Some? ==> s.cursor < s'.cursor <= |su.plan|
    ensures s.cursor <= s'.cursor
  {
    pending, s', events' := None, s, events;
    if s'.stopped.Some? || LimitReached(su, s') {
      return;
    }
    while s'.cursor < |su.plan|
      invariant Run(su, events') == Some(s') && s.cursor <= s'.cursor
      invariant s'.stopped.None? && !LimitReached(su, s')
      invariant s'.active == s.active && s'.submitted == s.submitted && s'.finished == s.finished
      decreases |su.plan| - s'.cursor
    {
      var i := s'.cursor;
      if IsReady(su, s'.stages, su.plan[i]) {
        var loaded: bool := *;
        OneMoreStep(su, events', s', Skip(i, loaded));
        events' := events' + [Skip(i, loaded)];
        s' := Apply(su, s', Skip(i, loaded));
      } else {
        var diskLow: bool := *;
        if diskLow {
          OneMoreStep(su, events', s', Stop(i));
          events' := events' + [Stop(i)];
          s' := Apply(su, s', Stop(i));
          return;
        }
        OneMoreStep(su, events', s', Submit(i));
        events' := events' + [Submit(i)];
        s' := Apply(su, s', Submit(i));
        pending := Some(i);
        return;
      }
    }
  }

  /** `record` for one finished job; an interrupt is recorded as a failure before it is raised. */
  method RecordResult(su: Setup, s: State, events: seq<Event>, i: nat)
    returns (interrupted: bool, s': State, events': seq<Event>)
    requires Run(su, events) == Some(s) && i in s.active && i < |su.plan|
    ensures Run(su, events') == Some(s')
    ensures s'.active == s.active - {i} && s'.finished == s.finished + [i]
    ensures s'.cursor == s.cursor && s'.submitted == s.submitted && s'.stopped == s.stopped
      && s'.processed == s.processed
  {
    var succeeded: bool := *;
    var requests: Option<nat> := *;
    interrupted := *;
    interrupted := interrupted && !succeeded;
    var result := if succeeded then Completed(requests) else Failed;
    OneMoreStep(su, events, s, Finish(i, result));
    events' := events + [Finish(i, result)];
    s' := Apply(su, s, Finish(i, result));
  }

  /** Fill the pool: submit until it is full or nothing is pending. */
  method Fill(su: Setup, s: State, events: seq<Event>) returns (s': State, events': seq<Event>)
    requires Run(su, events) == Some(s) && s.finished != [] && |s.active| <= su.workers
    ensures Run(su, events') == Some(s') && s'.finished == s.finished && |s'.active| <= su.workers
    ensures |s'.active| == su.workers || NothingLeft(su, s')
    ensures Work(su, s') <= Work(su, s)
  {
    s', events' := s, events;
    while |s'.active| < su.workers
      invariant Run(su, events') == Some(s') && s'.finished == s.finished && |s'.active| <= su.workers
      invariant Work(su, s') <= Work(su, s)
      decreases |su.plan| - s'.cursor
    {
      var pending: Option<nat>;
      ghost var before := s';
      RunsAreAccounted(su, events');
      pending, s', events' := NextPending(su, s', events');
      RunsAreAccounted(su, events');
      if pending.None? {
        return;
      }
      assert |s'.active| <= |before.active| + 1;
    }
  }

  /** Steps still possible: each submission takes one from the plan and adds one to the pool. */
  function Work(su: Setup, s: State): int {
    2 * (|su.plan| - s.cursor) + |s.active|
  }

  /** Wait for at least one job and record all that are done, in any order. */
  method Drain(su: Setup, s: State, events: seq<Event>) returns (interrupted: bool, s': State, events': seq<Event>)
    requires Run(su, events) == Some(s) && s.active != {} && |s.active| <= su.workers
    ensures Run(su, events') == Some(s') && s'.finished != [] && |s'.active| <= su.workers
    ensures Work(su, s') < Work(su, s)
  {
    RunsAreAccounted(su, events);
    interrupted, s', events' := false, s, events;
    var more := true;
    while more && s'.active != {}
      invariant Run(su, events') == Some(s') && s'.active <= s.active && s'.cursor == s.cursor
      invariant more || (s'.finished != [] && |s'.active| < |s.active|)
      invariant |s'.active| <= |s.active| && (s'.active != s.active ==> s'.finished != [] && |s'.active| < |s.active|)
      decreases |s'.active|
    {
      RunsAreAccounted(su, events');
      var i: nat :| i in s'.active;
      assert i in s'.submitted;
      ghost var before := s'.active;
      interrupted, s', events' := RecordResult(su, s', events', i);
      assert |s'.active| == |before| - 1;
      if interrupted {
        return;
      }
      more := *;
    }
  }

  /** The collector. Its steps are steps of the system, in an order that any completion order may give; when it
      returns without an interrupt, no job is left and nothing more may be taken. */
  method CollectStates(su: Setup) returns (interrupted: bool, events: seq<Event>)
    requires su.workers > 0
    ensures Run(su, events).Some?
    ensures !interrupted ==> Run(su, events).value.active == {} && NothingLeft(su, Run(su, events).value)
  {
    var s := Start(su);
    events := [];
    interrupted := false;
    var first: Option<nat>;
    first, s, events := NextPending(su, s, events);
    if first.None? {
      return;
    }
    interrupted, s, events := RecordResult(su, s, events, first.value);
    if interrupted {
      return;
    }
    while true
      invariant Run(su, events) == Some(s) && s.finished != [] && |s.active| <= su.workers
      decreases Work(su, s) + |su.plan|
    {
      RunsAreAccounted(su, events);
      s, events := Fill(su, s, events);
      if s.active == {} {
        return;
      }
      RunsAreAccounted(su, events);
      interrupted, s, events := Drain(su, s, events);
      if interrupted {
        return;
      }
    }
  }

  /** Once no job is active, every submitted position has been recorded exactly once. */
  lemma ReturnedRunsAreRecorded(su: Setup, events: seq<Event>)
    requires Run(su, events).Some? && Run(su, events).value.active == {}
    ensures multiset(Run(su, events).value.finished) == multiset(Run(su, events).value.submitted)
  {
    RunsAreAccounted(su, events);
    var s := Run(su, events).value;
    forall x: nat
      ensures multiset(s.finished)[x] == multiset(s.submitted)[x]
    {
      CountedOnce(s.finished, x);
      CountedOnce(s.submitted, x);
    }
  }

  /** With a plan of different blocks no block number is submitted twice. */
  lemma NoBlockIsSubmittedTwice(su: Setup, events: seq<Event>, a: nat, b: nat)
    requires Distinct(su.plan) && Run(su, events).Some?
    requires a < b < |Run(su, events).value.submitted|
    ensures var submitted := Run(su, events).value.submitted;
      submitted[a] < |su.plan| && submitted[b] < |su.plan| && su.plan[submitted[a]] != su.plan[submitted[b]]
  {
    RunsAreAccounted(su, events);
    var s := Run(su, events).value;
    assert s.submitted[a] in s.submitted && s.submitted[b] in s.submitted;
  }
}
