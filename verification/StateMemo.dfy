/** Memoised swaps on immutable states, and why no program can tell them from plain swaps. */
module StateMemo {
  import opened Market
  import opened Identity
  import opened Lists
  import opened RecencyLists
  import opened SwapMemos
  import opened SwapPrograms

  datatype Entry = Result(out: int, next: Obj) | Error(args: seq<string>)

  type MemoKey = (StateKey, Call)

  /** The allocator and collector, told only what must stay alive; otherwise free, addresses included. */
  datatype Env = Env(
    collect: (nat, World, set<Obj>) -> World,
    allocate: (nat, World, set<Obj>, Content) -> (World, Obj))

  ghost predicate Lawful(env: Env) {
    && (forall n, w, kept :: WellFormed(w) && kept <= w.at.Keys ==> Evolves(w, env.collect(n, w, kept), kept))
    && (forall n, w, kept, c :: WellFormed(w) && kept <= w.at.Keys && IsContent(c) ==>
         Allocated(w, env.allocate(n, w, kept, c), kept, c))
  }

  ghost predicate Allocated(w: World, r: (World, Obj), kept: set<Obj>, c: Content) {
    Evolves(w, r.0, kept) && r.1 in r.0.at && IsState(r.1) && ContentOf(r.1) == c
  }

  lemma LawfulAllocation(env: Env, n: nat, w: World, kept: set<Obj>, c: Content)
    requires Lawful(env) && WellFormed(w) && kept <= w.at.Keys && IsContent(c)
    ensures Allocated(w, env.allocate(n, w, kept, c), kept, c)
  {
    hide WellFormed, IsContent, Allocated, Evolves;
  }

  ghost predicate Shows(e: Entry, r: ContentResult) {
    match e
    case Error(args) => r == Refused(args)
    case Result(out, next) => IsState(next) && r == Paid(out, ContentOf(next))
  }

  /** An entry stands, under the key issued to its owner, for a line about what that key shows. */
  ghost predicate StandsFor(
    issued: map<Obj, StateKey>, w: World, owner: map<MemoKey, Obj>, values: map<MemoKey, Entry>, k: MemoKey, line: Line)
  {
    && k in values && k in owner && owner[k] in issued && issued[owner[k]] == k.0 && IsState(owner[k])
    && line.of == Erased(ContentOf(owner[k])) && line.call == k.1 && Shows(values[k], line.result)
    && (values[k].Result? ==> values[k].next in w.at)
  }

  ghost predicate AllStand(
    issued: map<Obj, StateKey>, w: World, owner: map<MemoKey, Obj>, values: map<MemoKey, Entry>, order: seq<MemoKey>,
    lines: seq<Line>)
  {
    |lines| == |order| && forall i :: 0 <= i < |lines| ==> StandsFor(issued, w, owner, values, order[i], lines[i])
  }

  /** Queueing an entry and its line. */
  lemma OneMoreStands(
    issued: map<Obj, StateKey>, w: World, owner: map<MemoKey, Obj>, values: map<MemoKey, Entry>, order: seq<MemoKey>,
    lines: seq<Line>, maxsize: int, k: MemoKey, state: Obj, line: Line, after: map<MemoKey, Entry>)
    requires AllStand(issued, w, owner, values, order, lines) && k !in order
    requires forall i :: 0 <= i < |order| && order[i] in after ==>
      order[i] in values && after[order[i]] == values[order[i]]
    requires forall o :: o in Queue(order, maxsize, k) ==> o in after
    requires StandsFor(issued, w, owner[k := state], after, k, line)
    ensures AllStand(issued, w, owner[k := state], after, Queue(order, maxsize, k), Queue(lines, maxsize, line))
  {
    hide Shows, ContentOf, Erased, IsState;
    var order', lines' := Queue(order, maxsize, k), Queue(lines, maxsize, line);
    forall i | 0 <= i < |lines'|
      ensures StandsFor(issued, w, owner[k := state], after, order'[i], lines'[i])
    {
      assert order'[i] in order';
      if i < |lines'| - 1 {
        var j := if |lines'| == |lines| then i + 1 else i;
        assert order'[i] == order[j] && lines'[i] == lines[j] && order[j] in order;
        assert StandsFor(issued, w, owner, values, order[j], lines[j]);
      }
    }
  }

  /** Entries keep standing for their lines where more keys are issued and their successors stay alive. */
  lemma StandElsewhere(
    issued: map<Obj, StateKey>, more: map<Obj, StateKey>, w: World, w': World, owner: map<MemoKey, Obj>,
    values: map<MemoKey, Entry>, order: seq<MemoKey>, lines: seq<Line>)
    requires AllStand(issued, w, owner, values, order, lines)
    requires forall o :: o in issued ==> o in more && more[o] == issued[o]
    requires forall k :: k in values && values[k].Result? && values[k].next in w.at ==> values[k].next in w'.at
    ensures AllStand(more, w', owner, values, order, lines)
  {
    hide Shows, ContentOf, Erased, IsState;
    forall i | 0 <= i < |lines|
      ensures StandsFor(more, w', owner, values, order[i], lines[i])
    {
      assert StandsFor(issued, w, owner, values, order[i], lines[i]);
    }
  }

  class StateSwapMemo {
    const swap: SwapFn
    const env: Env
    const identities: Identities
    const memo: SwapMemo<MemoKey, Entry>
    var world: World
    var clock: nat
    /** For each entry, the state whose swap it recorded. */
    ghost var owner: map<MemoKey, Obj>
    /** The memo as a value, oldest entry first. */
    ghost var lines: seq<Line>

    constructor (swap: SwapFn, env: Env, world: World, maxsize: int)
      requires WellFormed(world)
      ensures this.swap == swap && this.env == env && this.world == world
      ensures fresh(identities) && fresh(memo) && memo.maxsize == maxsize
      ensures Valid({}) && lines == []
    {
      this.swap, this.env, this.world := swap, env, world;
      identities := new Identities(maxsize);
      memo := new SwapMemo(maxsize);
      clock := 0;
      owner, lines := map[], [];
    }

    /** Everything the scope and the program keep alive. */
    function Roots(held: set<Obj>): set<Obj>
      reads identities, memo
    {
      identities.Retained() + (set k | k in memo.values && memo.values[k].Result? :: memo.values[k].next) + held
    }

    ghost predicate Recorded(k: MemoKey, line: Line)
      reads this, identities, memo
    {
      StandsFor(identities.issued, world, owner, memo.values, k, line)
    }

    ghost predicate AllRecorded()
      reads this, identities, memo
    {
      AllStand(identities.issued, world, owner, memo.values, memo.order, lines)
    }

    ghost predicate Valid(held: set<Obj>)
      reads this, identities, memo
    {
      && identities.Valid(world) && memo.Valid()
      && (forall o :: o in held ==> o in world.at && IsState(o))
      && AllRecorded()
    }

    lemma RootsAreAlive(held: set<Obj>)
      requires Valid(held)
      ensures Roots(held) <= world.at.Keys && WellFormed(world)
    {
      forall k | k in memo.values && memo.values[k].Result?
        ensures memo.values[k].next in world.at
      {
        var i :| 0 <= i < |memo.order| && memo.order[i] == k;
        assert Recorded(memo.order[i], lines[i]);
      }
    }

    /** An entry is found under the key of a state exactly where the memo as a value has a line for it. */
    lemma LookupFinds(k: MemoKey, state: Obj, held: set<Obj>)
      requires Valid(held) && state in identities.issued && identities.issued[state] == k.0 && IsState(state)
      ensures k in memo.values <==> Find(lines, Erased(ContentOf(state)), k.1).Some?
      ensures k in memo.values ==>
        && Shows(memo.values[k], Find(lines, Erased(ContentOf(state)), k.1).value)
        && (memo.values[k].Result? ==> memo.values[k].next in world.at && IsState(memo.values[k].next))
    {
      hide KeyFor, WellFormedTable, Addressed, WellFormed, ContentOf, Erased, Last;
      forall i | 0 <= i < |lines|
        ensures memo.order[i] == k <==> lines[i].of == Erased(ContentOf(state)) && lines[i].call == k.1
      {
        assert Recorded(memo.order[i], lines[i]);
        identities.IssuedKeysAreContents(world, owner[memo.order[i]], state);
      }
      if k in memo.values {
        var i :| 0 <= i < |memo.order| && memo.order[i] == k;
        assert Recorded(memo.order[i], lines[i]);
        FindFirst(lines, i, Erased(ContentOf(state)), k.1);
      } else {
        forall i | 0 <= i < |lines|
          ensures memo.order[i] != k
        {
          assert memo.order[i] in memo.order;
        }
        FindIsALine(lines, Erased(ContentOf(state)), k.1);
      }
    }

    /** Keying a state leaves every recorded entry in place. */
    method KeyOf(state: Obj, held: set<Obj>) returns (key: StateKey)
      requires Valid(held) && state in held
      modifies identities
      ensures Valid(held) && state in identities.issued && identities.issued[state] == key
    {
      hide KeyFor, WellFormedTable, Addressed, WellFormed, IsState, AllStand;
      ghost var was := identities.issued;
      key := identities.KeyOfState(world, state);
      StandElsewhere(was, identities.issued, world, world, owner, memo.values, memo.order, lines);
    }

    /** The patched freezer runs on the state's tick maps. */
    method Prepare(state: Obj, held: set<Obj>)
      requires Valid(held) && state in held
      modifies identities
      ensures Valid(held) && identities.issued == old(identities.issued)
    {
      hide KeyFor, WellFormedTable, Addressed, WellFormed, IsState, AllStand;
      if !state.body.Plain? {
        var bitmap, net := identities.FreezeMaps(world, state);
      }
    }

    /** Any heap that spares the roots leaves the memo valid. */
    method MoveTo(after: World, held: set<Obj>)
      requires Valid(held) && Evolves(world, after, Roots(held))
      modifies this`world
      ensures world == after && Valid(held)
    {
      hide KeyFor, WellFormedTable, Addressed, WellFormed, IsState, AllStand, Last, Distinct;
      forall k | k in memo.values && memo.values[k].Result?
        ensures memo.values[k].next in after.at
      {
        assert memo.values[k].next in Roots(held);
      }
      identities.SurvivesCollection(world, after);
      StandElsewhere(identities.issued, identities.issued, world, after, owner, memo.values, memo.order, lines);
      hide Identities.Valid, Evolves;
      world := after;
    }

    /** A collection between calls. */
    method Collect(held: set<Obj>)
      requires Valid(held) && Lawful(env)
      modifies this`world, this`clock
      ensures Valid(held)
    {
      RootsAreAlive(held);
      hide Valid, Evolves;
      var after := env.collect(clock, world, Roots(held));
      MoveTo(after, held);
      Tick(held);
    }

    /** A successor with this content is allocated; a collection may run meanwhile. */
    method Allocate(content: Content, held: set<Obj>) returns (next: Obj)
      requires Valid(held) && Lawful(env) && IsContent(content)
      modifies this`world, this`clock
      ensures Valid(held + {next}) && IsState(next) && ContentOf(next) == content
    {
      RootsAreAlive(held);
      LawfulAllocation(env, clock, world, Roots(held), content);
      hide Valid, Evolves, Lawful, IsContent, ContentOf, IsState;
      var (after, o) := env.allocate(clock, world, Roots(held), content);
      next := o;
      MoveTo(after, held);
      HoldOneMore(held, next);
      Tick(held + {next});
    }

    method Tick(held: set<Obj>)
      requires Valid(held)
      modifies this`clock
      ensures Valid(held)
    {
      hide KeyFor, WellFormedTable, Addressed, WellFormed, IsState, AllStand;
      clock := clock + 1;
    }

    /** The original swap on a state that the memo does not know. */
    method Perform(state: Obj, call: Call, held: set<Obj>) returns (result: Entry)
      requires Valid(held) && Lawful(env) && KeepsContents(swap) && state in held && IsState(state)
      modifies this`world, this`clock, identities
      ensures Shows(result, Plainly(swap, ContentOf(state), call))
      ensures Valid(if result.Result? then held + {result.next} else held)
      ensures identities.issued == old(identities.issued)
    {
      hide Valid, ContentOf, IsState, Lawful;
      match Plainly(swap, ContentOf(state), call) {
        case Refused(args) =>
          result := Error(args);
        case Paid(out, content) =>
          Prepare(state, held);
          assert IsContent(ContentOf(state));
          var next := Allocate(content, held);
          result := Result(out, next);
      }
    }

    /** Record a result under the key issued to the state. */
    method Remember(k: MemoKey, state: Obj, result: Entry, ghost shown: ContentResult, held: set<Obj>)
      returns (ok: bool)
      requires Valid(held) && k !in memo.values && state in identities.issued && identities.issued[state] == k.0
      requires IsState(state) && Shows(result, shown)
      requires result.Result? ==> result.next in world.at
      modifies this`owner, this`lines, memo
      ensures ok <==> memo.maxsize != 0
      ensures Valid(held)
      ensures lines == if !ok then old(lines)
        else Queue(old(lines), memo.maxsize, Line(Erased(ContentOf(state)), k.1, shown))
    {
      hide KeyFor, WellFormedTable, Addressed, WellFormed, ContentOf, IsState, Shows, Distinct, Last, Erased,
        AllStand, Queue;
      ghost var order, values, was := memo.order, memo.values, lines;
      ghost var line := Line(Erased(ContentOf(state)), k.1, shown);
      ok := memo.Put(k, result);
      if !ok {
        return;
      }
      assert k in memo.values && forall o :: o in Queue(order, memo.maxsize, k) ==> o in memo.values;
      OneMoreStands(identities.issued, world, owner, values, order, lines, memo.maxsize, k, state, line, memo.values);
      owner := owner[k := state];
      lines := Queue(lines, memo.maxsize, line);
    }

    /** The patched `swap` on a live state: exactly what the memo as a value serves, and what it keeps afterwards;
        `crashed` is the IndexError of a memo without capacity. */
    method Swap(state: Obj, call: Call, held: set<Obj>) returns (crashed: bool, result: Entry)
      requires Valid(held) && Lawful(env) && KeepsContents(swap) && state in held && IsState(state)
      modifies this`world, this`clock, this`owner, this`lines, identities, memo
      ensures crashed <==> Serve(swap, memo.maxsize, old(lines), ContentOf(state), call).NoRoom?
      ensures !crashed ==>
        var s := Serve(swap, memo.maxsize, old(lines), ContentOf(state), call);
        Shows(result, s.result) && lines == s.lines
      ensures !crashed ==> Valid(if result.Result? then held + {result.next} else held)
    {
      hide ContentOf, IsState, Lawful, KeepsContents, Plainly, Queue, Find, Erased, AllRecorded, Shows,
        Identities.Valid;
      var key := KeyOf(state, held);
      var k := (key, call);
      LookupFinds(k, state, held);
      NoLinesWithoutRoom(held);
      hide Valid;
      var cached := Lookup(k, held);
      if cached.Some? {
        result := cached.value;
        if result.Result? {
          HoldOneMore(held, result.next);
        }
        return false, result;
      }
      result := Perform(state, call, held);
      NextIsAlive(result, held);
      var ok := Remember(k, state, result, Plainly(swap, ContentOf(state), call),
                         if result.Result? then held + {result.next} else held);
      crashed := !ok;
    }

    lemma NoLinesWithoutRoom(held: set<Obj>)
      requires Valid(held)
      ensures memo.maxsize == 0 ==> lines == []
    {
      hide KeyFor, WellFormedTable, Addressed, WellFormed, ContentOf, IsState, Recorded;
    }

    method Lookup(k: MemoKey, held: set<Obj>) returns (r: Option<Entry>)
      requires Valid(held)
      modifies memo`hits, memo`misses
      ensures Valid(held) && r == if k in memo.values then Some(memo.values[k]) else None
    {
      hide KeyFor, WellFormedTable, Addressed, WellFormed, IsState, AllStand, Distinct, Last;
      r := memo.Get(k);
    }

    lemma HoldOneMore(held: set<Obj>, o: Obj)
      requires Valid(held) && o in world.at && IsState(o)
      ensures Valid(held + {o})
    {
    }

    /** Holding less keeps the memo valid. */
    lemma LetGo(held: set<Obj>, fewer: set<Obj>)
      requires Valid(held) && fewer <= held
      ensures Valid(fewer)
    {
    }

    lemma NextIsAlive(result: Entry, held: set<Obj>)
      requires Valid(if result.Result? then held + {result.next} else held)
      ensures result.Result? ==> result.next in world.at
    {
    }

    /** Entering the scope with one prepared state. */
    method Admit(state: Obj, held: set<Obj>)
      requires Valid(held) && state in held
      modifies identities
      ensures Valid(held)
    {
      hide KeyFor, WellFormedTable, Addressed, WellFormed, IsState, AllStand;
      identities.Admit(world, state);
    }
  }

  // ---------------------------------------------------------------- whole runs

  ghost predicate Mirrors(states: seq<Obj>, contents: seq<Content>) {
    |states| == |contents| && forall i :: 0 <= i < |states| ==>
      IsState(states[i]) && ContentOf(states[i]) == contents[i]
  }

  function Contents(states: seq<Obj>): (contents: seq<Content>)
    requires forall o :: o in states ==> IsState(o)
    ensures Mirrors(states, contents)
  {
    seq(|states|, i requires 0 <= i < |states| => ContentOf(states[i]))
  }

  function Observed(e: Entry): ContentResult
    requires e.Result? ==> IsState(e.next)
  {
    match e case Error(args) => Refused(args) case Result(out, next) => Paid(out, ContentOf(next))
  }

  function Members(states: seq<Obj>): (s: set<Obj>)
    ensures forall o :: o in s <==> o in states
  {
    set o | o in states
  }

  lemma MirrorsStates(states: seq<Obj>, contents: seq<Content>)
    requires Mirrors(states, contents)
    ensures |states| == |contents| && forall i :: 0 <= i < |states| ==> IsState(states[i])
    ensures forall i :: 0 <= i < |states| ==> states[i] in Members(states)
  {
  }

  lemma KeptMirrors(states: seq<Obj>, contents: seq<Content>, keep: seq<nat>)
    requires Mirrors(states, contents)
    ensures Mirrors(Kept(states, keep), Kept(contents, keep))
    ensures Members(Kept(states, keep)) <= Members(states)
  {
  }

  function Grown(states: seq<Obj>, result: Entry): seq<Obj> {
    if result.Result? then states + [result.next] else states
  }

  /** The state that the program swaps on next. */
  function Chosen(program: Program, run: Run, held: seq<Obj>): Obj
    requires run.Running? && held != []
  {
    held[At(held, program(run.trace.seen).index)]
  }

  function Answer(swap: SwapFn, maxsize: int, program: Program, run: Run, state: Obj): Service
    requires run.Running? && IsState(state)
  {
    Serve(swap, maxsize, run.lines, ContentOf(state), program(run.trace.seen).call)
  }

  /** One swap that shows the service keeps what the program holds in step with the memo as a value. */
  lemma SwapKeepsStep(swap: SwapFn, maxsize: int, program: Program, run: Run, held: seq<Obj>, result: Entry)
    requires run.Running? && held != [] && Mirrors(held, Kept(run.trace.contents, program(run.trace.seen).keep))
    requires IsState(Chosen(program, run, held))
    requires Answer(swap, maxsize, program, run, Chosen(program, run, held)).Served?
    requires Shows(result, Answer(swap, maxsize, program, run, Chosen(program, run, held)).result)
    ensures result.Result? ==> IsState(result.next)
    ensures var next := MemoStep(swap, maxsize, program, run);
      && next.Running? && Mirrors(Grown(held, result), next.trace.contents)
      && next.trace.seen == run.trace.seen + [Observed(result)]
      && next.lines == Answer(swap, maxsize, program, run, Chosen(program, run, held)).lines
    ensures Members(Grown(held, result)) == if result.Result? then Members(held) + {result.next} else Members(held)
  {
    hide ContentOf, IsState, Serve;
    assert |held| == |Kept(run.trace.contents, program(run.trace.seen).keep)|;
  }

  lemma SwapCrashes(swap: SwapFn, maxsize: int, program: Program, run: Run, held: seq<Obj>)
    requires run.Running? && held != [] && Mirrors(held, Kept(run.trace.contents, program(run.trace.seen).keep))
    requires IsState(Chosen(program, run, held))
    requires Answer(swap, maxsize, program, run, Chosen(program, run, held)).NoRoom?
    ensures MemoStep(swap, maxsize, program, run).Crashed?
  {
    hide ContentOf, IsState, Serve;
  }

  /** The scope and the program after k steps are where the memo as a value puts them. */
  ghost predicate InStep(
    scope: StateSwapMemo, program: Program, start: seq<Content>, k: nat, states: seq<Obj>, seen: seq<ContentResult>)
    reads scope, scope.identities, scope.memo
  {
    var run := MemoRun(scope.swap, scope.memo.maxsize, program, start, k);
    scope.Valid(Members(states)) && run.Running? && InPlace(scope.lines, states, seen, run)
  }

  ghost predicate InPlace(lines: seq<Line>, states: seq<Obj>, seen: seq<ContentResult>, run: Run)
    requires run.Running?
  {
    lines == run.lines && seen == run.trace.seen && Mirrors(states, run.trace.contents)
  }

  /** One step of the program: it lets go of what it does not keep, a collection runs with only the kept states and
      the scope's own as roots, and it swaps. */
  method Turn(
    scope: StateSwapMemo, program: Program, ghost start: seq<Content>, ghost k: nat, states: seq<Obj>,
    seen: seq<ContentResult>)
    returns (failed: bool, states': seq<Obj>, seen': seq<ContentResult>)
    requires Lawful(scope.env) && KeepsContents(scope.swap)
    requires InStep(scope, program, start, k, states, seen)
    modifies scope, scope.identities, scope.memo
    ensures failed ==> MemoRun(scope.swap, scope.memo.maxsize, program, start, k + 1).Crashed?
    ensures !failed ==> InStep(scope, program, start, k + 1, states', seen')
  {
    hide Lawful, KeepsContents, ContentOf, IsState, MemoStep, Members, Shows, Observed, StateSwapMemo.Valid, Mirrors,
      Kept, Serve;
    MemoRunUnfolds(scope.swap, scope.memo.maxsize, program, start, k);
    ghost var run := MemoRun(scope.swap, scope.memo.maxsize, program, start, k);
    hide MemoRun;
    var a := program(seen);
    var held := Kept(states, a.keep);
    KeptMirrors(states, run.trace.contents, a.keep);
    scope.LetGo(Members(states), Members(held));
    scope.Collect(Members(held));
    if held == [] {
      NothingHeld(scope.swap, scope.memo.maxsize, program, run);
      return false, [], seen;
    }
    MirrorsStates(held, Kept(run.trace.contents, a.keep));
    var state := held[At(held, a.index)];
    var crashed, result := scope.Swap(state, a.call, Members(held));
    if crashed {
      SwapCrashes(scope.swap, scope.memo.maxsize, program, run, held);
      return true, [], seen;
    }
    SwapKeepsStep(scope.swap, scope.memo.maxsize, program, run, held, result);
    failed, states', seen' := false, Grown(held, result), seen + [Observed(result)];
  }

  lemma NothingHeld(swap: SwapFn, maxsize: int, program: Program, run: Run)
    requires run.Running? && Mirrors([], Kept(run.trace.contents, program(run.trace.seen).keep))
    ensures MemoStep(swap, maxsize, program, run) == Running(Trace([], run.trace.seen), run.lines)
    ensures Mirrors([], [])
  {
    hide Serve;
  }

  /** Whatever is collected or reallocated between and within its swaps once neither it nor the scope holds it, any
      adaptive program observes what the memo as a value serves it. On prepared states that agree, under swaps that
      keep what the source's keep, those are the amounts, successor contents and refusals of plain swaps, for every
      capacity but zero; with capacity zero the first swap fails. */
  method RunProgram(swap: SwapFn, env: Env, program: Program, world: World, start: seq<Obj>, maxsize: int, n: nat)
    returns (crashed: bool, seen: seq<ContentResult>)
    requires WellFormed(world) && Lawful(env) && KeepsContents(swap)
    requires forall o :: o in start ==> o in world.at && IsState(o)
    ensures crashed <==> maxsize == 0 && PlainRun(swap, program, Contents(start), n).seen != []
    ensures !crashed ==> var run := MemoRun(swap, maxsize, program, Contents(start), n);
      run.Running? && seen == run.trace.seen
    ensures !crashed && Inherits(swap) && Agreeing(Contents(start)) ==>
      seen == PlainRun(swap, program, Contents(start), n).seen
  {
    hide *;
    var scope := OpenScope(swap, env, world, start, maxsize);
    var states := start;
    seen := [];
    InStepAtFirst(scope, program, start);
    ghost var contents := Contents(start);
    var k := 0;
    while k < n
      invariant 0 <= k <= n && fresh(scope) && fresh(scope.identities) && fresh(scope.memo)
      invariant scope.swap == swap && scope.env == env && scope.memo.maxsize == maxsize
      invariant InStep(scope, program, contents, k, states, seen)
    {
      var failed: bool;
      failed, states, seen := Turn(scope, program, contents, k, states, seen);
      if failed {
        CrashesStay(swap, maxsize, program, contents, k + 1, n);
        CrashesIffNoCapacity(swap, maxsize, program, contents, n);
        return true, seen;
      }
      k := k + 1;
    }
    SeenInStep(scope, program, contents, n, states, seen);
    crashed := false;
  }

  /** A new scope on the prepared states. */
  method OpenScope(swap: SwapFn, env: Env, world: World, start: seq<Obj>, maxsize: int) returns (scope: StateSwapMemo)
    requires WellFormed(world) && forall o :: o in start ==> o in world.at && IsState(o)
    ensures fresh(scope) && fresh(scope.identities) && fresh(scope.memo)
    ensures scope.swap == swap && scope.env == env && scope.memo.maxsize == maxsize
    ensures scope.Valid(Members(start)) && scope.lines == []
  {
    hide WellFormed, IsState, StateSwapMemo.Valid;
    scope := new StateSwapMemo(swap, env, world, maxsize);
    EnterScope(scope, start);
  }

  lemma InStepAtFirst(scope: StateSwapMemo, program: Program, start: seq<Obj>)
    requires (forall o :: o in start ==> IsState(o)) && scope.Valid(Members(start)) && scope.lines == []
    ensures InStep(scope, program, Contents(start), 0, start, [])
  {
    hide StateSwapMemo.Valid, IsState, ContentOf;
  }

  lemma SeenInStep(
    scope: StateSwapMemo, program: Program, start: seq<Content>, k: nat, states: seq<Obj>, seen: seq<ContentResult>)
    requires InStep(scope, program, start, k, states, seen)
    ensures var run := MemoRun(scope.swap, scope.memo.maxsize, program, start, k);
      var t := PlainRun(scope.swap, program, start, k);
      && run.Running? && seen == run.trace.seen
      && (scope.memo.maxsize == 0 ==> t.seen == [])
      && (Inherits(scope.swap) && Agreeing(start) ==> seen == t.seen)
  {
    hide StateSwapMemo.Valid, IsState, ContentOf, PlainRun, Inherits, Agreeing, MemoRun;
    CrashesIffNoCapacity(scope.swap, scope.memo.maxsize, program, start, k);
    if Inherits(scope.swap) && Agreeing(start) && scope.memo.maxsize != 0 {
      AgreeingRunsArePlain(scope.swap, scope.memo.maxsize, program, start, k);
    }
  }

  /** The set-up loop of `state_swap_memo` over the prepared states. */
  method EnterScope(scope: StateSwapMemo, states: seq<Obj>)
    requires scope.Valid({}) && scope.lines == []
    requires forall o :: o in states ==> o in scope.world.at && IsState(o)
    modifies scope.identities
    ensures scope.Valid(Members(states)) && scope.lines == []
  {
    hide KeyFor, WellFormedTable, Addressed, WellFormed, ContentOf, IsState;
    var i := 0;
    while i < |states|
      invariant 0 <= i <= |states|
      invariant scope.Valid(Members(states)) && scope.lines == []
    {
      scope.Admit(states[i], Members(states));
      i := i + 1;
    }
  }

  // ---------------------------------------------------------------- such allocators exist

  /** Nothing alive refers to the object, and nobody asks for it to stay. */
  ghost predicate Garbage(w: World, kept: set<Obj>, o: Obj) {
    o in w.at && o !in kept && forall p :: p in w.at ==> o !in Parts(p)
  }

  /** A full collection: objects do not refer to each other in circles, so unreferenced ones can go one by one. */
  ghost function Sweep(w: World, kept: set<Obj>): (w': World)
    requires WellFormed(w) && kept <= w.at.Keys
    ensures Evolves(w, w', kept)
    ensures w'.at.Keys <= w.at.Keys && forall o :: !Garbage(w', kept, o)
    decreases |w.at|
  {
    if exists o :: Garbage(w, kept, o) then
      var o :| Garbage(w, kept, o);
      assert (w.at - {o}).Keys == w.at.Keys - {o} && |w.at - {o}| == |(w.at - {o}).Keys| && |w.at| == |w.at.Keys|;
      Sweep(World(w.at - {o}), kept)
    else w
  }

  /** An address above all those in use. */
  ghost function Unused(at: map<Obj, int>, keys: set<Obj>): (n: int)
    requires keys <= at.Keys
    ensures forall o :: o in keys ==> at[o] < n
  {
    if keys == {} then 0 else
      var o :| o in keys;
      var n := Unused(at, keys - {o});
      if at[o] < n then n else at[o] + 1
  }

  /** The address of an object of the old heap that is free now. */
  ghost predicate Freed(before: World, w: World, o: Obj) {
    o in before.at && forall p :: p in w.at ==> w.at[p] != before.at[o]
  }

  /** Places an object, if it is not alive already, at an address that has become free, if there is one. */
  ghost function Place(before: World, w: World, o: Obj): World {
    if o in w.at then w
    else if exists dead :: Freed(before, w, dead) then
      var dead :| Freed(before, w, dead);
      World(w.at[o := before.at[dead]])
    else World(w.at[o := Unused(w.at, w.at.Keys)])
  }

  ghost function PlaceAll(before: World, w: World, os: seq<Obj>): World {
    if os == [] then w else Place(before, PlaceAll(before, w, os[..|os| - 1]), os[|os| - 1])
  }

  lemma PlacingOne(before: World, w: World, o: Obj)
    requires WellFormed(w) && Parts(o) <= w.at.Keys
    ensures Evolves(w, Place(before, w, o), w.at.Keys) && o in Place(before, w, o).at
    ensures Place(before, w, o).at.Keys == w.at.Keys + {o}
  {
    hide Parts;
  }

  lemma {:induction false} PlacingEvolves(before: World, w: World, os: seq<Obj>)
    requires WellFormed(w)
    requires forall i :: 0 <= i < |os| ==> forall p :: p in Parts(os[i]) ==> p in os[..i]
    ensures Evolves(w, PlaceAll(before, w, os), w.at.Keys)
    ensures forall o :: o in os || o in w.at <==> o in PlaceAll(before, w, os).at
  {
    if os != [] {
      var earlier, last := os[..|os| - 1], os[|os| - 1];
      assert forall i :: 0 <= i < |earlier| ==> earlier[..i] == os[..i];
      assert os == earlier + [last];
      hide Parts, Place, Unused, Freed;
      PlacingEvolves(before, w, earlier);
      PlacingOne(before, PlaceAll(before, w, earlier), last);
    }
  }

  /** The parts of a fresh state with this content, the state itself last. */
  ghost function Fresh(c: Content): (os: seq<Obj>)
    requires IsContent(c)
    ensures os != [] && IsState(os[|os| - 1]) && ContentOf(os[|os| - 1]) == c
    ensures forall i :: 0 <= i < |os| ==> forall p :: p in Parts(os[i]) ==> p in os[..i]
  {
    match c
    case V3Content(k, fee) =>
      var common := CommonFrom(k);
      PartsOf(common) + [Obj(0, V3(common, fee))]
    case PancakeContent(k, fee, feeProtocol) =>
      var common := CommonFrom(k);
      PartsOf(common) + [Obj(0, Pancake(common, fee, feeProtocol))]
    case V4Content(k, protocolFee, lpFee) =>
      var common := CommonFrom(k);
      PartsOf(common) + [Obj(0, V4(common, protocolFee, lpFee))]
    case PlainContent(kind, record, fields) =>
      var o :| IsState(o) && ContentOf(o) == c;
      var parts, state := [record] + Tokens(fields), Obj(0, Plain(kind, record, fields));
      assert forall p :: p in parts ==> Parts(p) == {};
      assert (parts + [state])[..|parts|] == parts;
      parts + [state]
  }

  ghost function CommonFrom(k: CommonContent): Common {
    Common(k.record, k.sqrtPrice, k.tick, k.liquidity, k.spacing, k.token0, k.token1, Obj(0, TickMap(k.bitmap)),
           Obj(0, TickMap(k.net)), k.wordLo, k.wordHi, k.gas)
  }

  ghost function PartsOf(c: Common): seq<Obj> { [c.record, c.token0, c.token1, c.bitmap, c.net] }

  ghost function Tokens(fields: seq<Field>): (os: seq<Obj>)
    ensures forall o :: o in os <==> exists f :: f in fields && f.TokenField? && f.token == o
  {
    if fields == [] then [] else
      assert fields == [fields[0]] + fields[1..];
      (if fields[0].TokenField? then [fields[0].token] else []) + Tokens(fields[1..])
  }

  function Alive(w: World, os: seq<Obj>): (alive: set<Obj>)
    ensures forall o :: o in alive <==> o in os && o in w.at
  {
    set o | o in os && o in w.at
  }

  /** Collects everything it may, then places the parts of a state with this content. */
  ghost function Renew(w: World, kept: set<Obj>, c: Content): World
    requires WellFormed(w) && kept <= w.at.Keys && IsContent(c)
  {
    PlaceAll(w, Sweep(w, kept + Alive(w, Fresh(c))), Fresh(c))
  }

  /** Frees every object it may and gives its address to the next one. */
  ghost function Recycler(): Env {
    Env((n, w, kept) => if WellFormed(w) && kept <= w.at.Keys then Sweep(w, kept) else w,
        (n, w, kept, c) =>
          if WellFormed(w) && kept <= w.at.Keys && IsContent(c)
          then (Renew(w, kept, c), Fresh(c)[|Fresh(c)| - 1]) else (w, Obj(0, TickMap(map[]))))
  }

  /** A state dies, and its address comes back as that of a state with another content: the hazard of keys by `id`. */
  ghost predicate Recycles(env: Env) {
    exists n, w, kept, dead, c ::
      && WellFormed(w) && kept <= w.at.Keys && dead in w.at && IsState(dead) && IsContent(c) && ContentOf(dead) != c
      && var (after, next) := env.allocate(n, w, kept, c);
      && dead !in after.at && next !in w.at && next in after.at && after.at[next] == w.at[dead]
      && IsState(next) && ContentOf(next) == c
  }

  lemma RenewalEvolves(w: World, kept: set<Obj>, c: Content)
    requires WellFormed(w) && kept <= w.at.Keys && IsContent(c)
    ensures Allocated(w, (Renew(w, kept, c), Fresh(c)[|Fresh(c)| - 1]), kept, c)
  {
    hide WellFormed, Parts, Place, IsContent, IsState, ContentOf, Fresh, Sweep, PlaceAll;
    var os := Fresh(c);
    var swept := Sweep(w, kept + Alive(w, os));
    PlacingEvolves(w, swept, os);
    assert os[|os| - 1] in os;
    forall o | o in w.at && o in PlaceAll(w, swept, os).at ensures o in swept.at {
      if o in os {
        assert o in Alive(w, os);
      }
    }
  }

  lemma RecyclerIsLawful()
    ensures Lawful(Recycler())
  {
    hide WellFormed, Parts, IsContent, Fresh, IsState, ContentOf, Sweep, Renew, Allocated, Evolves;
    var env := Recycler();
    forall n, w, kept, c | WellFormed(w) && kept <= w.at.Keys && IsContent(c)
      ensures Allocated(w, env.allocate(n, w, kept, c), kept, c)
    {
      RenewalEvolves(w, kept, c);
    }
  }

  /** The requirement on the allocator can be met, and by one that recycles addresses of dead states. */
  lemma LawfulEnvironmentsExist()
    ensures exists env :: Lawful(env) && Recycles(env)
  {
    RecyclerIsLawful();
    RecyclerRecycles();
  }

  /** A heap of a record and one state on it, of which only the record is kept. */
  lemma RecyclerRecycles()
    ensures Recycles(Recycler())
  {
    var data: Payload :| true;
    var record := Obj(0, Record(data));
    var dead, other := Obj(0, Plain(Kind("a", []), record, [])), Obj(0, Plain(Kind("b", []), record, []));
    assert "a"[0] != "b"[0];
    var w, kept, c := World(map[record := 5, dead := 7]), {record}, ContentOf(other);
    OneStateDies(w, record, dead);
    assert IsContent(c) && Fresh(c) == [record, other];
    assert kept + Alive(w, Fresh(c)) == kept;
    OnePlaceIsFree(w, record, dead, other);
    assert Renew(w, kept, c) == World(map[record := 5, other := 7]);
    RecycledBy(w, kept, dead, c, World(map[record := 5, other := 7]), other);
  }

  lemma RecycledBy(w: World, kept: set<Obj>, dead: Obj, c: Content, after: World, next: Obj)
    requires WellFormed(w) && kept <= w.at.Keys && dead in w.at && IsState(dead) && IsContent(c) && ContentOf(dead) != c
    requires Renew(w, kept, c) == after && Fresh(c)[|Fresh(c)| - 1] == next
    requires dead !in after.at && next !in w.at && next in after.at && after.at[next] == w.at[dead]
    ensures Recycles(Recycler())
  {
    hide WellFormed, IsContent, Renew, Fresh;
    assert Recycler().allocate(0, w, kept, c) == (after, next);
  }

  lemma OneStateDies(w: World, record: Obj, dead: Obj)
    requires record.body.Record? && dead.body.Plain? && Parts(dead) == {record}
      && w == World(map[record := 5, dead := 7])
    ensures WellFormed(w) && Sweep(w, {record}) == World(map[record := 5])
  {
    assert Garbage(w, {record}, dead);
    assert forall o :: Garbage(w, {record}, o) ==> o == dead;
    assert w.at - {dead} == map[record := 5];
    assert forall o :: !Garbage(World(map[record := 5]), {record}, o);
  }

  lemma OnePlaceIsFree(w: World, record: Obj, dead: Obj, other: Obj)
    requires record != dead && other !in {record, dead} && w == World(map[record := 5, dead := 7])
    ensures PlaceAll(w, World(map[record := 5]), [record, other]) == World(map[record := 5, other := 7])
  {
    var rest := World(map[record := 5]);
    assert [record, other][..1] == [record] && [record][..0] == [];
    assert PlaceAll(w, rest, [record]) == rest;
    assert Freed(w, rest, dead);
    assert forall o :: Freed(w, rest, o) ==> o == dead;
  }
}
