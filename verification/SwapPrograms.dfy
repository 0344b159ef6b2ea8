/** Adaptive programs over swaps on immutable states: every swap recomputed, or served from a bounded memo whose keys
    miss the field that `PancakeV3State` adds to its superclass. */
module SwapPrograms {
  import opened Market
  import opened Identity
  import opened SwapMemos

  /** What a plain swap does to a content: it pays out and yields a successor, or raises `Unsupported(*args)`. */
  datatype ContentResult = Paid(out: int, next: Content) | Refused(args: seq<string>)

  type SwapFn = (Content, Address, Address, int) -> ContentResult

  datatype Call = Call(tokenIn: Address, tokenOut: Address, amount: int)

  function Plainly(swap: SwapFn, c: Content, call: Call): ContentResult {
    swap(c, call.tokenIn, call.tokenOut, call.amount)
  }

  ghost predicate IsContent(c: Content) {
    exists o :: IsState(o) && ContentOf(o) == c
  }

  ghost predicate KeepsContents(swap: SwapFn) {
    forall c, i, o, a :: IsContent(c) && swap(c, i, o, a).Paid? ==> IsContent(swap(c, i, o, a).next)
  }

  // ---------------------------------------------------------------- programs

  /** A program's next step: which of the states it holds it keeps, by position, and a swap on one of those. */
  datatype Action = Action(keep: seq<nat>, index: nat, call: Call)

  /** An adaptive program chooses from everything it has observed so far. */
  type Program = seq<ContentResult> -> Action

  /** A position in a list that is not empty; one past its end is taken for the first. */
  function At<T>(xs: seq<T>, k: nat): (i: nat)
    requires xs != []
    ensures i < |xs| && (k < |xs| ==> i == k)
  {
    if k < |xs| then k else 0
  }

  /** The positions listed, in that order; the rest is let go. */
  function Kept<T>(xs: seq<T>, keep: seq<nat>): (kept: seq<T>)
    ensures kept == [] <==> xs == [] || keep == []
    ensures forall x :: x in kept ==> x in xs
  {
    if xs == [] then [] else seq(|keep|, i requires 0 <= i < |keep| => xs[At(xs, keep[i])])
  }

  /** What a program holds, and what it has observed. */
  datatype Trace = Trace(contents: seq<Content>, seen: seq<ContentResult>)

  function Observe(t: Trace, r: ContentResult): Trace {
    Trace(if r.Paid? then t.contents + [r.next] else t.contents, t.seen + [r])
  }

  /** One step on plain states, where every swap is recomputed; a program that holds nothing has come to its end. */
  function PlainStep(swap: SwapFn, a: Action, t: Trace): Trace {
    var held := Kept(t.contents, a.keep);
    if held == [] then Trace([], t.seen)
    else Observe(Trace(held, t.seen), Plainly(swap, held[At(held, a.index)], a.call))
  }

  function PlainRun(swap: SwapFn, program: Program, start: seq<Content>, n: nat): Trace {
    if n == 0 then Trace(start, [])
    else
      var t := PlainRun(swap, program, start, n - 1);
      PlainStep(swap, program(t.seen), t)
  }

  lemma PlainRunUnfolds(swap: SwapFn, program: Program, start: seq<Content>, n: nat)
    ensures PlainRun(swap, program, start, 0) == Trace(start, [])
    ensures var t := PlainRun(swap, program, start, n);
      PlainRun(swap, program, start, n + 1) == PlainStep(swap, program(t.seen), t)
  {
    hide PlainStep;
  }

  // ---------------------------------------------------------------- the memo as a value

  /** An entry: what its key shows of the state, the call, and the result. */
  datatype Line = Line(of: Content, call: Call, result: ContentResult)

  function Find(lines: seq<Line>, of: Content, call: Call): Option<ContentResult> {
    if lines == [] then None
    else if lines[0].of == of && lines[0].call == call then Some(lines[0].result)
    else Find(lines[1..], of, call)
  }

  datatype Service = Served(result: ContentResult, lines: seq<Line>) | NoRoom

  /** The patched swap: the entry under the state's key, or the plain result, which is then kept. Without room for a
      single entry, dropping the oldest of none fails. */
  function Serve(swap: SwapFn, maxsize: int, lines: seq<Line>, c: Content, call: Call): Service {
    match Find(lines, Erased(c), call)
    case Some(r) => Served(r, lines)
    case None =>
      var r := Plainly(swap, c, call);
      if |lines| == maxsize && lines == [] then NoRoom
      else Served(r, Queue(lines, maxsize, Line(Erased(c), call, r)))
  }

  datatype Run = Running(trace: Trace, lines: seq<Line>) | Crashed

  function MemoStep(swap: SwapFn, maxsize: int, program: Program, run: Run): Run {
    match run
    case Crashed => Crashed
    case Running(t, lines) =>
      var a := program(t.seen);
      var held := Kept(t.contents, a.keep);
      if held == [] then Running(Trace([], t.seen), lines)
      else
        match Serve(swap, maxsize, lines, held[At(held, a.index)], a.call)
        case NoRoom => Crashed
        case Served(r, more) => Running(Observe(Trace(held, t.seen), r), more)
  }

  function MemoRun(swap: SwapFn, maxsize: int, program: Program, start: seq<Content>, n: nat): Run {
    if n == 0 then Running(Trace(start, []), [])
    else MemoStep(swap, maxsize, program, MemoRun(swap, maxsize, program, start, n - 1))
  }

  lemma MemoRunUnfolds(swap: SwapFn, maxsize: int, program: Program, start: seq<Content>, n: nat)
    ensures MemoRun(swap, maxsize, program, start, 0) == Running(Trace(start, []), [])
    ensures var run := MemoRun(swap, maxsize, program, start, n);
      MemoRun(swap, maxsize, program, start, n + 1) == MemoStep(swap, maxsize, program, run)
  {
    hide MemoStep;
  }

  lemma {:induction false} CrashesStay(
    swap: SwapFn, maxsize: int, program: Program, start: seq<Content>, k: nat, n: nat)
    requires k <= n && MemoRun(swap, maxsize, program, start, k).Crashed?
    ensures MemoRun(swap, maxsize, program, start, n).Crashed?
  {
    hide Serve, Kept, Observe;
    if k < n {
      CrashesStay(swap, maxsize, program, start, k, n - 1);
    }
  }

  lemma {:induction false} FindIsALine(lines: seq<Line>, of: Content, call: Call)
    ensures Find(lines, of, call).Some? ==>
      exists i :: 0 <= i < |lines| && lines[i] == Line(of, call, Find(lines, of, call).value)
  {
    if lines != [] && !(lines[0].of == of && lines[0].call == call) {
      FindIsALine(lines[1..], of, call);
      if Find(lines[1..], of, call).Some? {
        var i :| 0 <= i < |lines| - 1 && lines[1..][i] == Line(of, call, Find(lines, of, call).value);
        assert lines[i + 1] == lines[1..][i];
      }
    } else if lines != [] {
      assert lines[0] == Line(of, call, Find(lines, of, call).value);
    }
  }

  lemma {:induction false} FindFirst(lines: seq<Line>, i: nat, of: Content, call: Call)
    requires i < |lines| && lines[i].of == of && lines[i].call == call
    requires forall j :: 0 <= j < i ==> lines[j].of != of || lines[j].call != call
    ensures Find(lines, of, call) == Some(lines[i].result)
  {
    if i > 0 {
      assert lines[0].of != of || lines[0].call != call;
      FindFirst(lines[1..], i - 1, of, call);
    }
  }

  // ---------------------------------------------------------------- capacity

  /** The memo fails exactly in a run that swaps at all with no capacity. */
  lemma {:induction false} CrashesIffNoCapacity(
    swap: SwapFn, maxsize: int, program: Program, start: seq<Content>, n: nat)
    ensures MemoRun(swap, maxsize, program, start, n).Crashed? <==>
      maxsize == 0 && PlainRun(swap, program, start, n).seen != []
    ensures maxsize == 0 && PlainRun(swap, program, start, n).seen == [] ==>
      MemoRun(swap, maxsize, program, start, n) == Running(PlainRun(swap, program, start, n), [])
  {
    hide MemoStep, PlainStep;
    if n > 0 {
      CrashesIffNoCapacity(swap, maxsize, program, start, n - 1);
      var run, t := MemoRun(swap, maxsize, program, start, n - 1), PlainRun(swap, program, start, n - 1);
      if run.Running? {
        CrashesWhereItSwaps(swap, maxsize, program, run, t);
      } else {
        CrashedStaysCrashed(swap, maxsize, program, t);
      }
    }
  }

  lemma CrashesWhereItSwaps(swap: SwapFn, maxsize: int, program: Program, run: Run, t: Trace)
    requires run.Running? && (maxsize == 0 ==> run == Running(t, []) && t.seen == [])
    ensures var next, after := MemoStep(swap, maxsize, program, run), PlainStep(swap, program(t.seen), t);
      && (next.Crashed? <==> maxsize == 0 && after.seen != [])
      && (maxsize == 0 && after.seen == [] ==> next == Running(after, []))
  {
    hide Kept, Queue, Plainly;
  }

  lemma CrashedStaysCrashed(swap: SwapFn, maxsize: int, program: Program, t: Trace)
    ensures MemoStep(swap, maxsize, program, Crashed) == Crashed
    ensures t.seen <= PlainStep(swap, program(t.seen), t).seen
  {
    hide Kept, Plainly;
  }

  // ---------------------------------------------------------------- when the memo is exact

  /** The fields that no swap on a state of the subclass moves, apart from its own field. */
  function Pool(c: Content): Content
    requires c.PancakeContent?
  {
    PancakeContent(c.common.(sqrtPrice := 0, tick := 0, liquidity := 0), c.fee, 0)
  }

  /** A swap on a state of the subclass moves its price, tick and liquidity; no other state has one as successor. */
  ghost predicate Inherits(swap: SwapFn) {
    forall c, i, o, a :: swap(c, i, o, a).Paid? && swap(c, i, o, a).next.PancakeContent? ==>
      SamePool(c, swap(c, i, o, a).next)
  }

  predicate SamePool(c: Content, d: Content) {
    c.PancakeContent? && d.PancakeContent? && Pool(c) == Pool(d) && c.feeProtocol == d.feeProtocol
  }

  /** States of the subclass that agree in all that swaps leave alone agree in `feeProtocol` too. */
  predicate Agreeing(start: seq<Content>) {
    forall i, j :: 0 <= i < |start| && 0 <= j < |start| ==> !Clash(start[i], start[j])
  }

  /** Two states of one pool that the key cannot tell apart once swaps have moved them together. */
  predicate Clash(c: Content, d: Content) {
    c.PancakeContent? && d.PancakeContent? && Pool(c) == Pool(d) && c.feeProtocol != d.feeProtocol
  }

  /** Descends from a starting state, unless it is of another class. */
  ghost predicate Rooted(start: seq<Content>, c: Content) {
    c.PancakeContent? ==> exists i :: 0 <= i < |start| && SamePool(start[i], c)
  }

  ghost predicate AllRooted(start: seq<Content>, cs: seq<Content>) {
    forall i :: 0 <= i < |cs| ==> Rooted(start, cs[i])
  }

  /** A line that records a plain swap on such a state. */
  ghost predicate Genuine(swap: SwapFn, start: seq<Content>, line: Line) {
    exists c :: Rooted(start, c) && line == Line(Erased(c), line.call, Plainly(swap, c, line.call))
  }

  ghost predicate AllGenuine(swap: SwapFn, start: seq<Content>, lines: seq<Line>) {
    forall i :: 0 <= i < |lines| ==> Genuine(swap, start, lines[i])
  }

  lemma RootedAreTold(start: seq<Content>, c: Content, d: Content)
    requires Agreeing(start) && Rooted(start, c) && Rooted(start, d) && Erased(c) == Erased(d)
    ensures c == d
  {
  }

  lemma ServedIsPlain(swap: SwapFn, maxsize: int, start: seq<Content>, lines: seq<Line>, c: Content, call: Call)
    requires maxsize != 0 && Agreeing(start) && Rooted(start, c) && AllGenuine(swap, start, lines)
    ensures var s := Serve(swap, maxsize, lines, c, call);
      s.Served? && s.result == Plainly(swap, c, call) && AllGenuine(swap, start, s.lines)
  {
    hide Agreeing, Rooted, Erased, Plainly;
    FindIsALine(lines, Erased(c), call);
    var s := Serve(swap, maxsize, lines, c, call);
    if Find(lines, Erased(c), call).Some? {
      var i :| 0 <= i < |lines| && lines[i] == Line(Erased(c), call, s.result);
      assert Genuine(swap, start, lines[i]);
      var d :| Rooted(start, d) && lines[i] == Line(Erased(d), lines[i].call, Plainly(swap, d, lines[i].call));
      RootedAreTold(start, c, d);
    } else {
      assert Genuine(swap, start, Line(Erased(c), call, s.result));
    }
  }

  lemma SuccessorIsRooted(swap: SwapFn, start: seq<Content>, c: Content, call: Call)
    requires Inherits(swap) && Rooted(start, c)
    ensures Plainly(swap, c, call).Paid? ==> Rooted(start, Plainly(swap, c, call).next)
  {
  }

  /** On agreeing states every run with the memo is the plain run. */
  lemma {:induction false} AgreeingRunsArePlain(
    swap: SwapFn, maxsize: int, program: Program, start: seq<Content>, n: nat)
    requires Inherits(swap) && Agreeing(start) && maxsize != 0
    ensures var run, t := MemoRun(swap, maxsize, program, start, n), PlainRun(swap, program, start, n);
      run.Running? && run.trace == t && AllRooted(start, t.contents) && AllGenuine(swap, start, run.lines)
  {
    hide MemoStep, PlainStep, Inherits, Agreeing, Genuine;
    if n == 0 {
      assert forall i :: 0 <= i < |start| && start[i].PancakeContent? ==> SamePool(start[i], start[i]);
    } else {
      AgreeingRunsArePlain(swap, maxsize, program, start, n - 1);
      var run := MemoRun(swap, maxsize, program, start, n - 1);
      AgreeingStepIsPlain(swap, maxsize, program, start, run);
    }
  }

  lemma AgreeingStepIsPlain(swap: SwapFn, maxsize: int, program: Program, start: seq<Content>, run: Run)
    requires Inherits(swap) && Agreeing(start) && maxsize != 0
    requires run.Running? && AllRooted(start, run.trace.contents) && AllGenuine(swap, start, run.lines)
    ensures var next, t := MemoStep(swap, maxsize, program, run), PlainStep(swap, program(run.trace.seen), run.trace);
      next.Running? && next.trace == t && AllRooted(start, t.contents) && AllGenuine(swap, start, next.lines)
  {
    hide Inherits, Agreeing, Rooted, AllGenuine, Plainly, Serve;
    var a := program(run.trace.seen);
    var held := Kept(run.trace.contents, a.keep);
    forall i | 0 <= i < |held|
      ensures Rooted(start, held[i])
    {
      assert held[i] in held && held[i] in run.trace.contents;
    }
    if held != [] {
      var c := held[At(held, a.index)];
      ServedIsPlain(swap, maxsize, start, run.lines, c, a.call);
      SuccessorIsRooted(swap, start, c, a.call);
    }
  }

  /** No program can tell the memo from plain swaps, whatever the swaps compute. */
  ghost predicate Transparent(maxsize: int, start: seq<Content>) {
    forall swap, program, n: nat | KeepsContents(swap) && Inherits(swap) :: SeenAlike(swap, maxsize, program, start, n)
  }

  ghost predicate SeenAlike(swap: SwapFn, maxsize: int, program: Program, start: seq<Content>, n: nat) {
    var run := MemoRun(swap, maxsize, program, start, n);
    run.Running? && run.trace.seen == PlainRun(swap, program, start, n).seen
  }

  /** A memo with room is invisible to every program on every swap exactly where the starting states agree. */
  lemma TransparentIffAgreeing(maxsize: int, start: seq<Content>)
    requires maxsize != 0
    ensures Transparent(maxsize, start) <==> Agreeing(start)
  {
    if Agreeing(start) {
      forall swap, program, n: nat | KeepsContents(swap) && Inherits(swap)
        ensures SeenAlike(swap, maxsize, program, start, n)
      {
        AgreeingRunsArePlain(swap, maxsize, program, start, n);
      }
    } else {
      var i, j :| 0 <= i < |start| && 0 <= j < |start| && Clash(start[i], start[j]);
      DrawIsLawful(start[i]);
      DisagreementShows(maxsize, start, i, j);
    }
  }

  // ---------------------------------------------------------------- where it is not

  /** Draws each state of a pool to the price, tick and liquidity of one of them. */
  function Draw(to: Content): SwapFn
    requires to.PancakeContent?
  {
    (c: Content, i: Address, o: Address, a: int) =>
      if c.PancakeContent? && Pool(c) == Pool(to) then Paid(0, PancakeContent(to.common, to.fee, c.feeProtocol))
      else Refused([])
  }

  lemma DrawIsLawful(to: Content)
    requires to.PancakeContent?
    ensures KeepsContents(Draw(to)) && Inherits(Draw(to))
  {
    var swap := Draw(to);
    forall c, i, o, a | IsContent(c) && swap(c, i, o, a).Paid?
      ensures IsContent(swap(c, i, o, a).next)
    {
      var s :| IsState(s) && ContentOf(s) == c;
      var k := to.common;
      var common := s.body.common.(sqrtPrice := k.sqrtPrice, tick := k.tick, liquidity := k.liquidity);
      PoolFixes(c, to);
      var next := Obj(0, Pancake(common, s.body.fee, s.body.feeProtocol));
      assert IsState(next) && ContentOf(next) == swap(c, i, o, a).next;
    }
  }

  lemma PoolFixes(c: Content, d: Content)
    requires c.PancakeContent? && d.PancakeContent? && Pool(c) == Pool(d)
    ensures c.common.(sqrtPrice := d.common.sqrtPrice, tick := d.common.tick, liquidity := d.common.liquidity) ==
      d.common
    ensures c.fee == d.fee
  {
  }

  /** Draws the second state to the first, then swaps the first, then the drawn one. */
  function Meet(i: nat, j: nat): Program {
    (seen: seq<ContentResult>) =>
      if |seen| == 0 then Action([i, j], 1, Call([], [], 0))
      else if |seen| == 1 then Action([0, 2], 0, Call([], [], 0))
      else Action([1], 0, Call([], [], 0))
  }

  /** Two calls in a row under one key are served one result. */
  lemma ServedAgain(swap: SwapFn, maxsize: int, lines: seq<Line>, c: Content, d: Content, call: Call)
    requires Serve(swap, maxsize, lines, c, call).Served? && Erased(c) == Erased(d)
    ensures var s := Serve(swap, maxsize, lines, c, call); Serve(swap, maxsize, s.lines, d, call) == s
  {
    var s := Serve(swap, maxsize, lines, c, call);
    if Find(lines, Erased(c), call).None? {
      var kept := if |lines| == maxsize && lines != [] then lines[1..] else lines;
      if kept != lines {
        DroppedIsNotFound(lines, Erased(c), call);
      }
      FoundLast(kept, Line(Erased(c), call, s.result));
    }
  }

  lemma DroppedIsNotFound(lines: seq<Line>, of: Content, call: Call)
    requires lines != [] && Find(lines, of, call).None?
    ensures Find(lines[1..], of, call).None?
  {
  }

  lemma {:induction false} FoundLast(lines: seq<Line>, line: Line)
    requires Find(lines, line.of, line.call).None?
    ensures Find(lines + [line], line.of, line.call) == Some(line.result)
  {
    if lines != [] {
      FoundLast(lines[1..], line);
      assert (lines + [line])[1..] == lines[1..] + [line];
    }
  }

  /** Three swaps show it: the memo answers the third with the successor of the other state. */
  lemma DisagreementShows(maxsize: int, start: seq<Content>, i: nat, j: nat)
    requires maxsize != 0 && i < |start| && j < |start| && Clash(start[i], start[j])
    ensures !SeenAlike(Draw(start[i]), maxsize, Meet(i, j), start, 3)
  {
    var x, y := start[i], start[j];
    var swap, program := Draw(x), Meet(i, j);
    PoolFixes(y, x);
    var drawn := PancakeContent(x.common, x.fee, y.feeProtocol);
    PlainMeeting(start, i, j, drawn);
    MemoMeeting(maxsize, start, i, j, drawn);
  }

  lemma PlainMeeting(start: seq<Content>, i: nat, j: nat, drawn: Content)
    requires i < |start| && j < |start| && Clash(start[i], start[j])
    requires drawn == PancakeContent(start[i].common, start[i].fee, start[j].feeProtocol)
    ensures PlainRun(Draw(start[i]), Meet(i, j), start, 3).seen == [Paid(0, drawn), Paid(0, start[i]), Paid(0, drawn)]
  {
    hide PlainRun, PlainStep, Kept;
    var x, y := start[i], start[j];
    PlainNext(Draw(x), Meet(i, j), start, 0, Trace(start, []), [x, y]);
    PlainNext(Draw(x), Meet(i, j), start, 1, Trace([x, y, drawn], [Paid(0, drawn)]), [x, drawn]);
    PlainNext(Draw(x), Meet(i, j), start, 2, Trace([x, drawn, x], [Paid(0, drawn), Paid(0, x)]), [drawn]);
  }

  lemma PlainNext(swap: SwapFn, program: Program, start: seq<Content>, n: nat, t: Trace, held: seq<Content>)
    requires (if n == 0 then t == Trace(start, []) else t == PlainRun(swap, program, start, n)) && t.contents != []
    requires Picked(t.contents, program(t.seen).keep, held)
    ensures var a := program(t.seen);
      PlainRun(swap, program, start, n + 1) ==
        Observe(Trace(held, t.seen), Plainly(swap, held[At(held, a.index)], a.call))
  {
    PlainRunUnfolds(swap, program, start, n);
    KeepsPicked(t.contents, program(t.seen).keep, held);
    hide PlainRun, Kept, Picked, Observe, Plainly;
  }

  /** One or two positions picked. */
  predicate Picked(xs: seq<Content>, keep: seq<nat>, held: seq<Content>) {
    && 0 < |held| == |keep| <= 2 && keep[0] < |xs| && held[0] == xs[keep[0]]
    && (|keep| == 2 ==> keep[1] < |xs| && held[1] == xs[keep[1]])
  }

  lemma KeepsPicked(xs: seq<Content>, keep: seq<nat>, held: seq<Content>)
    requires Picked(xs, keep, held)
    ensures Kept(xs, keep) == held != []
  {
  }

  lemma MemoNext(
    swap: SwapFn, maxsize: int, program: Program, start: seq<Content>, n: nat, t: Trace, lines: seq<Line>,
    held: seq<Content>)
    requires if n == 0 then t == Trace(start, []) && lines == []
      else MemoRun(swap, maxsize, program, start, n) == Running(t, lines)
    requires t.contents != [] && Picked(t.contents, program(t.seen).keep, held) && maxsize != 0
    ensures var a := program(t.seen);
      var s := Serve(swap, maxsize, lines, held[At(held, a.index)], a.call);
      && s.Served?
      && MemoRun(swap, maxsize, program, start, n + 1) == Running(Observe(Trace(held, t.seen), s.result), s.lines)
  {
    MemoRunUnfolds(swap, maxsize, program, start, n);
    KeepsPicked(t.contents, program(t.seen).keep, held);
    hide MemoRun, Kept, Picked, Observe, Plainly, Find, Queue;
  }

  lemma MemoMeeting(maxsize: int, start: seq<Content>, i: nat, j: nat, drawn: Content)
    requires maxsize != 0 && i < |start| && j < |start| && Clash(start[i], start[j])
    requires drawn == PancakeContent(start[i].common, start[i].fee, start[j].feeProtocol)
    ensures var run := MemoRun(Draw(start[i]), maxsize, Meet(i, j), start, 3);
      run.Running? && |run.trace.seen| == 3 && run.trace.seen[1] == run.trace.seen[2]
  {
    hide MemoRun, MemoStep, Kept, Queue;
    var x, y, q := start[i], start[j], Call([], [], 0);
    var swap, program := Draw(x), Meet(i, j);
    MemoNext(swap, maxsize, program, start, 0, Trace(start, []), [], [x, y]);
    var first := Serve(swap, maxsize, [], y, q);
    assert first.result == Paid(0, drawn);
    hide Serve;
    MemoNext(swap, maxsize, program, start, 1, Trace([x, y, drawn], [Paid(0, drawn)]), first.lines, [x, drawn]);
    var second := Serve(swap, maxsize, first.lines, x, q);
    var t := Observe(Trace([x, drawn], [Paid(0, drawn)]), second.result);
    MemoNext(swap, maxsize, program, start, 2, t, second.lines, [drawn]);
    ServedAgain(swap, maxsize, first.lines, x, drawn, q);
  }

  // ---------------------------------------------------------------- what agrees all the same

  function ErasedResult(r: ContentResult): ContentResult {
    match r case Refused(_) => r case Paid(out, next) => Paid(out, Erased(next))
  }

  function ErasedSeen(seen: seq<ContentResult>): (erased: seq<ContentResult>)
    ensures |erased| == |seen|
  {
    seq(|seen|, i requires 0 <= i < |seen| => ErasedResult(seen[i]))
  }

  function ErasedAll(cs: seq<Content>): (erased: seq<Content>)
    ensures |erased| == |cs|
  {
    seq(|cs|, i requires 0 <= i < |cs| => Erased(cs[i]))
  }

  /** Amounts, refusals and all other fields of successors do not depend on `feeProtocol`. */
  ghost predicate Blind(swap: SwapFn) {
    forall c, d, call :: Erased(c) == Erased(d) ==>
      ErasedResult(Plainly(swap, c, call)) == ErasedResult(Plainly(swap, d, call))
  }

  /** The program does not choose by `feeProtocol`. */
  ghost predicate Heedless(program: Program) {
    forall seen, more :: ErasedSeen(seen) == ErasedSeen(more) ==> program(seen) == program(more)
  }

  ghost predicate Nearly(swap: SwapFn, line: Line) {
    exists c :: Erased(c) == line.of && ErasedResult(line.result) == ErasedResult(Plainly(swap, c, line.call))
  }

  ghost predicate AllNearly(swap: SwapFn, lines: seq<Line>) {
    forall i :: 0 <= i < |lines| ==> Nearly(swap, lines[i])
  }

  lemma ServedIsNearlyPlain(swap: SwapFn, maxsize: int, lines: seq<Line>, c: Content, d: Content, call: Call)
    requires maxsize != 0 && Blind(swap) && AllNearly(swap, lines) && Erased(c) == Erased(d)
    ensures var s := Serve(swap, maxsize, lines, c, call);
      s.Served? && ErasedResult(s.result) == ErasedResult(Plainly(swap, d, call)) && AllNearly(swap, s.lines)
  {
    hide Erased, Plainly, ErasedResult;
    FindIsALine(lines, Erased(c), call);
    var s := Serve(swap, maxsize, lines, c, call);
    if Find(lines, Erased(c), call).Some? {
      var i :| 0 <= i < |lines| && lines[i] == Line(Erased(c), call, s.result);
      assert Nearly(swap, lines[i]);
    } else {
      assert Nearly(swap, Line(Erased(c), call, s.result));
    }
  }

  /** Where no swap and no choice reads `feeProtocol`, any run with the memo, on agreeing states or not, pays the same
      amounts, raises the same refusals, and holds states that differ from the plain ones in `feeProtocol` at most. */
  lemma {:induction false} RunsAgreeButForTheField(
    swap: SwapFn, maxsize: int, program: Program, start: seq<Content>, n: nat)
    requires Blind(swap) && Heedless(program) && maxsize != 0
    ensures var run, t := MemoRun(swap, maxsize, program, start, n), PlainRun(swap, program, start, n);
      && run.Running? && ErasedSeen(run.trace.seen) == ErasedSeen(t.seen)
      && ErasedAll(run.trace.contents) == ErasedAll(t.contents) && AllNearly(swap, run.lines)
  {
    hide MemoStep, PlainStep, Blind, Heedless, AllNearly, ErasedSeen, ErasedAll;
    if n > 0 {
      RunsAgreeButForTheField(swap, maxsize, program, start, n - 1);
      var run, t := MemoRun(swap, maxsize, program, start, n - 1), PlainRun(swap, program, start, n - 1);
      StepsAgreeButForTheField(swap, maxsize, program, run, t);
    } else {
      assert AllNearly(swap, []) by { NoLinesAreNearly(swap); }
    }
  }

  lemma NoLinesAreNearly(swap: SwapFn)
    ensures AllNearly(swap, [])
  {
  }

  lemma StepsAgreeButForTheField(swap: SwapFn, maxsize: int, program: Program, run: Run, t: Trace)
    requires Blind(swap) && Heedless(program) && maxsize != 0
    requires run.Running? && ErasedSeen(run.trace.seen) == ErasedSeen(t.seen)
    requires ErasedAll(run.trace.contents) == ErasedAll(t.contents) && AllNearly(swap, run.lines)
    ensures var next, after := MemoStep(swap, maxsize, program, run), PlainStep(swap, program(t.seen), t);
      && next.Running? && ErasedSeen(next.trace.seen) == ErasedSeen(after.seen)
      && ErasedAll(next.trace.contents) == ErasedAll(after.contents) && AllNearly(swap, next.lines)
  {
    var a := program(t.seen);
    assert a == program(run.trace.seen);
    hide Blind, Heedless, Erased, ErasedResult, Plainly, Serve, Kept, AllNearly, ErasedSeen, Observe;
    var held, plain := Kept(run.trace.contents, a.keep), Kept(t.contents, a.keep);
    KeptErased(run.trace.contents, t.contents, a.keep);
    if held != [] {
      var k := At(held, a.index);
      assert Erased(held[k]) == ErasedAll(held)[k] == ErasedAll(plain)[k] == Erased(plain[k]);
      ServedIsNearlyPlain(swap, maxsize, run.lines, held[k], plain[k], a.call);
      var s := Serve(swap, maxsize, run.lines, held[k], a.call);
      ObservedErased(Trace(held, run.trace.seen), Trace(plain, t.seen), s.result, Plainly(swap, plain[k], a.call));
    }
  }

  lemma KeptErased(cs: seq<Content>, ds: seq<Content>, keep: seq<nat>)
    requires ErasedAll(cs) == ErasedAll(ds)
    ensures ErasedAll(Kept(cs, keep)) == ErasedAll(Kept(ds, keep)) && |Kept(cs, keep)| == |Kept(ds, keep)|
  {
    hide Erased;
    assert |cs| == |ds|;
    assert forall i :: 0 <= i < |cs| ==> Erased(cs[i]) == ErasedAll(cs)[i] == ErasedAll(ds)[i] == Erased(ds[i]);
  }

  lemma ObservedErased(t: Trace, u: Trace, r: ContentResult, q: ContentResult)
    requires ErasedAll(t.contents) == ErasedAll(u.contents) && ErasedSeen(t.seen) == ErasedSeen(u.seen)
    requires ErasedResult(r) == ErasedResult(q)
    ensures ErasedAll(Observe(t, r).contents) == ErasedAll(Observe(u, q).contents)
    ensures ErasedSeen(Observe(t, r).seen) == ErasedSeen(Observe(u, q).seen)
  {
    hide Erased;
    assert r.Paid? <==> q.Paid?;
    assert ErasedSeen(t.seen + [r]) == ErasedSeen(t.seen) + [ErasedResult(r)];
    assert ErasedSeen(u.seen + [q]) == ErasedSeen(u.seen) + [ErasedResult(q)];
    if r.Paid? {
      assert ErasedAll(t.contents + [r.next]) == ErasedAll(t.contents) + [Erased(r.next)];
      assert ErasedAll(u.contents + [q.next]) == ErasedAll(u.contents) + [Erased(q.next)];
    }
  }
}
