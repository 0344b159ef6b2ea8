# Dafny model of the swap-archeology scripts

The repository reconstructs historical swap routing on an Ethereum node: an integer-exact plan evaluator, a finite
baseline solver and a beam search, and around them scripts that make the router faster without changing its reports,
check its reports independently, collect historical blocks with restartable workers, and align blocks with exchange
candles. The code that is hard to trust is the code that has to agree with something simpler. This project models
that code and proves the agreements, for every input, every run and every venue (a venue stands for the pools' `swap`
and `gas_estimate`, which stay arbitrary functions).

`dafny verify dfyconfig.toml` checks everything.

| file | part of the system |
|---|---|
| `Market.dfy`, `Evaluator.dfy`, `Settlement.dfy` | requests, pools, ledgers, the plan evaluator, and exactly what it accepts |
| `Ledger.dfy`, `Acceptance.dfy` | the two independent report checkers, what each accepts, their agreement, and the evaluator against both |
| `BeamSearch.dfy`, `SearchCoverage.dfy`, `SearchTwins.dfy`, `SearchLimits.dfy` | the general search, with and without the residual skip; what it finds, what its keys may drop, and its limits |
| `Routes.dfy`, `Candidates.dfy`, `Capacity.dfy`, `SplitSearch.dfy`, `SplitResults.dfy`, `SplitReports.dfy`, `SplitDiagnostics.dfy` | two-route splits: quotes, which splits work, shared capacity, the pruned scan in both forms, what it finds and what each form records |
| `OrderedPrefix.dfy`, `EvaluationMemo.dfy`, `SwapMemo.dfy`, `InitialSwaps.dfy` | bounded memos over the router; the split search takes its ordered quotes through the first |
| `Identities.dfy`, `SwapPrograms.dfy`, `StateMemo.dfy` | the interning table over a heap that reuses addresses; programs of swaps with the memo as a value; and the swap memo on live objects |
| `Collector.dfy`, `Summary.dfy`, `SummaryMeanings.dfy`, `DenseRun.dfy` | restartable collection: the worker pool, the incremental manifest, crash and resume |
| `BlockSearch.dfy`, `Candles.dfy` | finding blocks by time, and candles for blocks |
| `CrashSelection.dfy`, `SwapEvents.dfy`, `SwapBuckets.dfy`, `BatchMatch.dfy` | greedy selection, swap-log accounting, response matching |
| `Lists.dfy`, `Recency.dfy`, `Sorting.dfy`, `StableSort.dfy` | duplicate-free lists, recency lists, sorted sets, stable sorting |

Loops and updated objects of the scripts are methods and classes, each proved equal to a specification function or
to a stated property; the theorems are lemmas about those specifications, and methods that drive a whole run.

## What the proofs found

- For candidates that the path checker accepts, the balance replay accepts exactly when the paths are solvent, the
  request tokens differ or nothing comes out, and each reported refund is the output itself: the path checker does
  not look at `terminal_refund` (`LedgerChecks.CheckersAgree`). Solvency always holds of non-negative amounts; without
  them it has a condition that can be read off the report (`LedgerChecks.AcceptedReplaysIffFunded`). The other way
  round the replay checks less (`LedgerChecks.ReplayChecksLess`).
- The indexed split search always returns the original's plan. It records the original's diagnostics on every venue
  exactly when the route list has no doubled route (`SplitDiagnostics.DiagnosticsAgree`); the solver's own lists have
  none, unless its constructor is given an intermediate twice (`SplitDiagnostics.EnumeratedDiagnosticsAgree`,
  `SplitDiagnostics.RepeatedIntermediateDoubles`).
- The keys of the state memo leave out `fee_protocol`, the field that `PancakeV3State` adds to its superclass, so two
  such states can have one key (`Identity.PancakesCollide`). The memo is invisible exactly when prepared states that
  share everything else that a swap leaves alone share that field too (`SwapPrograms.TransparentIffAgreeing`), which
  holds of states with a record of their own each. Amounts and refusals are right even without it, because the swap
  arithmetic does not read the field (`SwapPrograms.RunsAgreeButForTheField`).
- A swap memo of capacity zero raises `IndexError` at its first insertion; no other capacity does
  (`SwapPrograms.CrashesIffNoCapacity`, `InitialSwaps.RunSwaps`).
- The block search steps by 20 and fails with the node's error when that misses every bracket, which happens only
  near block zero or the head of the chain (`BlockSearch.HeaderCache.FindBlock` states the exact condition). Its
  `Could not find block` error and the shared resolver's bounds error are unreachable. The shared resolver starts
  every later search 100 blocks above the pin before it, so it fails near the head of the chain on targets that have
  pins (`BlockSearch.PinnedTargetsCanFail`).
- The version 2 manifest counts entries with an unforeseen status as planned, where version 1 does not, and leaves
  out a boolean request count, which version 1 adds as a number (`Summaries.VersionsAgree`).
- A dense run's checkpoint keeps only the blocks wanted by the run that wrote it last: resuming a subset drops the
  others' records, which costs time but never a row (`DenseRun.DenseRunner.RunEvent`).
- Minute buckets of the swap experiment exist for eleven fixed minutes; swaps elsewhere would be missing from them
  (`SwapBuckets.MinuteBucketsConserveIff`).
- A decodable V3 log with a zero price aborts the experiment instead of being rejected (`SwapEvents.DecodeAll`).
- The bound of the crash selection, (count - 1) * (2 * separation - 1) days, is sharp
  (`CrashSelection.EnoughDaysIsSharp`).
- The candle matcher takes opening times above 10,000,000,000 for milliseconds, so the coverage of a window holds
  exactly up to that limit, in the year 2286 (`Candles.CoverWindow`).
- Unreachable code: `future_candle_rejected` in the candle matcher, the second limit check in the collector's scan
  (`scripts/historical_study.py:433-434`), and the nonpositive-volume checks of both log decoders.

## Assumptions

Stated as preconditions where they are used: pool ids are globally unique and a swap keeps its pool's id
(`BeamSearch.SkipIsInvisible`); the beam keeps a subset of its frontier, and all of one that is no wider than
itself; nodes with one key hold the same in the same states after equally many steps, among them no LitePSM
(`SearchCoverage.KeysTell`); for what keys may drop, pools share no capacity, are on the request's chain and keep what
they are and have a gas estimate when they swap (`SearchTwins.Separate`, `SearchTwins.Steady`); routes lead from the request's input to its
output (proved of the solver's own routes); objects that the program or the scope refers to stay alive, and live
objects have distinct addresses (`Identity.WellFormed`; `StateMemo.LawfulEnvironmentsExist`); a swap of equal
contents gives equal contents, and a `PancakeV3State` has successors of its class that differ from it in price, tick
and liquidity at most (`SwapPrograms.Inherits`); a dictionary or tuple compared by identity is alive when it is compared;
block processing is deterministic under a fingerprint; block timestamps do not decrease; constants for WETH and USDC
differ.

## Model

| member | source | states |
|---|---|---|
| `Market.PoolsByIdLists` | src/swaparch/evaluator/evaluate.py:20 | With globally unique pool ids the id dictionary lists exactly the given states. |
| `Market.PoolsByIdKeepsTheLast` | src/swaparch/evaluator/evaluate.py:20 | On any list the dictionary has exactly the ids of the list, each with the last state that carries it. |
| `Evaluator.EvaluatePlan` | src/swaparch/evaluator/evaluate.py:14-100 | The step loop with its `break`s, the owner scan and the closing checks compute the specification that every other result is about, for every plan, state list and venue. |
| `Evaluator.StepOutcome` | src/swaparch/evaluator/evaluate.py:38-76 | A step either fails and leaves balances, pools and results alone, or spends at most what is held, credits a non-negative output, replaces one pool and appends one result. |
| `Evaluator.FindSharedCapacity` | src/swaparch/evaluator/evaluate.py:123-134 | The owner scan refuses a plan exactly when two different known pools of the plan claim one capacity, whatever the order of steps. |
| `Evaluator.ClaimAll` | src/swaparch/evaluator/evaluate.py:130-133 | Claiming a pool's capacities fails exactly when another pool owns one of them; otherwise earlier owners keep theirs. |
| `Evaluator.FailureSticks` | src/swaparch/evaluator/evaluate.py:38-67 | Once a step has failed, no later step of the plan changes anything. |
| `Settlement.StepRunsIff` | src/swaparch/evaluator/evaluate.py:38-66 | A step runs exactly if its pool is known and on the chain, its input is non-negative and held, the swap answers with a non-negative output and gas answers; otherwise its reason is the first of these checks that fails. |
| `Settlement.StepLeaves` | src/swaparch/evaluator/evaluate.py:60-76 | A step that runs moves the two balances, replaces its pool, records output and gas, and counts as a purchase exactly if it buys a LitePSM's gem with a positive amount of DAI. |
| `Settlement.BuysAreRecorded` | src/swaparch/evaluator/evaluate.py:54-72 | The recorded purchases are exactly those that executed steps make in the pools they find, in order. |
| `Settlement.CapacityIsSharedIff` | src/swaparch/evaluator/evaluate.py:123-134 | A plan is refused for its capacities exactly if two different known pools of it have a capacity in common. |
| `Settlement.ReportIsTheRun` | src/swaparch/evaluator/evaluate.py:14-100 | A bad request or a shared capacity is refused before any step; otherwise steps, output, spent and residual are those of the run, its failure is the only reason, and gas is present exactly if there are results that all have it, and is then their sum. |
| `Settlement.RefundIsReported` | src/swaparch/evaluator/evaluate.py:102-121 | A token is refunded exactly if the request allows it, one executed step alone bought a gem with it, its fee is zero, less than one gem of it is left and no later step yields it; the refund is what is left. For runs that fail as well. |
| `Settlement.AcceptedIffNothingIsLeft` | src/swaparch/evaluator/evaluate.py:78-99 | A plan that gets through all its steps is accepted if and only if no input is held and nothing else but the output and the refund is; otherwise each other token that is left is a reason of its own, none twice, and held input is the reason where there is none. |
| `Settlement.StrandedInOrder` | src/swaparch/evaluator/evaluate.py:80-83 | Those reasons come in the order in which the run first meets their tokens. |
| `LedgerChecks.ReplayBalances` | scripts/eval_quote_performance.py:115-132 | The balance replay raises nothing exactly for candidates whose steps never overspend, whose output, spent and residual match the final balances, and whose refunds are positive and match. |
| `LedgerChecks.CheckPath` | scripts/check_selected_routes.py:45-62 | One allocation: its slice of the steps must be non-empty, name the allocated pools, start with its amount and hand token and amount on to the output token. |
| `LedgerChecks.CheckAllocations` | scripts/check_selected_routes.py:43-68 | The running `offset, total, allocated` over the allocations, or the first mismatch. |
| `LedgerChecks.CheckPaths` | scripts/check_selected_routes.py:35-71 | The whole path check of one candidate. |
| `Acceptance.AcceptedIffSelected` | scripts/check_selected_routes.py:35-71 | The path checker accepts a candidate if and only if it is a full fill through different pools whose steps are, one after the other, non-empty paths of its allocations: each names its pools, starts with the request's input and the allocated amount, hands token and amount on within each pool's own two tokens, and ends with the output; allocated amounts add up to the request and last outputs to the output. |
| `Acceptance.PathPassesIff` | scripts/check_selected_routes.py:45-62 | One allocation passes exactly if the steps at its offset are such a path; it then yields the output of the last of them. |
| `Acceptance.ReplayAcceptsIffBalanced` | scripts/eval_quote_performance.py:115-132 | The balance replay accepts a candidate if and only if no step spends more than the steps before it leave, and output, spent, residual and every refund are what is there at the end. |
| `LedgerChecks.ReplayPath` | scripts/check_selected_routes.py:51-60 | Replaying one path overspends exactly at a hop whose token is in the red beside the path's own amount; otherwise it holds the unallocated input, the outputs so far and the amount in hand, also when the path runs through the request's own input or output token. No amount is assumed to have a sign. |
| `LedgerChecks.ReplayAllocations` | scripts/check_selected_routes.py:43-68 | After any number of allocations the replay has got this far exactly when all their paths are solvent, and then it holds the unallocated input and the outputs so far, and nothing else. |
| `LedgerChecks.Remaining` | scripts/check_selected_routes.py:66-71 | With non-negative amounts no prefix of the allocations of an accepted candidate draws more than the request. |
| `LedgerChecks.AcceptedReplaysIffSolvent` | scripts/check_selected_routes.py:35-71 | Replaying an accepted candidate never overspends if and only if every path is solvent; it then ends with exactly `amount_out` of the output token and zero of every other. Any signs, any request tokens. |
| `LedgerChecks.AcceptedReplaysIffFunded` | scripts/check_selected_routes.py:35-71 | For different request tokens that is: no prefix of the allocations exceeds the request, and the outputs before any path that spends the output token do not sum to less than zero. |
| `LedgerChecks.NonNegativeIsSolvent` | scripts/check_selected_routes.py:35-71 | Non-negative amounts make every accepted candidate solvent. |
| `LedgerChecks.AcceptedPathsSettle` | scripts/check_selected_routes.py:35-71 | Replaying an accepted candidate with non-negative amounts never overspends and ends with exactly `amount_out` of the output token and zero of every other. |
| `LedgerChecks.CheckersAgree` | scripts/eval_quote_performance.py:115-132 | For a candidate that the path checker accepts, the replay accepts if and only if its paths are solvent, the request tokens differ or nothing comes out, and every reported refund is exactly the output (the path checker ignores refunds). |
| `LedgerChecks.CheckersAgreeOnNonNegative` | scripts/eval_quote_performance.py:115-132 | With non-negative amounts only the tokens and the refunds decide. |
| `LedgerChecks.CheckersAgreeWithoutRefund` | scripts/eval_quote_performance.py:115-132 | Different request tokens and no refund: accepted by the path checker means accepted by the replay. |
| `LedgerChecks.NegativeAllocationSplitsTheCheckers` | scripts/check_selected_routes.py:66-71 | An instance of the exact condition: an allocation above the request balanced by a negative one passes the path checker and fails the replay. |
| `LedgerChecks.ReplayChecksLess` | scripts/check_selected_routes.py:40-42 | The replay accepts a plan that goes through one pool twice, which the path checker refuses. |
| `LedgerChecks.EvaluatorReplays` | src/swaparch/evaluator/evaluate.py:38-76 | The evaluator's balances are the replay of the results it recorded, for runs that fail as well as for those that do not, and all recorded amounts are non-negative. |
| `LedgerChecks.EvaluatorReportsReplay` | scripts/eval_quote_performance.py:115-132 | The replay accepts everything the evaluator reports, feasible or not, refunds included, if and only if the request tokens differ or the request is for zero. |
| `LedgerChecks.EvaluatorReportsNonNegative` | src/swaparch/evaluator/evaluate.py:43-70 | Reported steps satisfy the non-negativity that the agreement of the checkers needs. |
| `BeamSearch.GeneralSearchSolver.constructor` | src/swaparch/solver/search.py:45-83 | A new solver has empty diagnostics. |
| `BeamSearch.GeneralSearchSolver.Solve` | scripts/perf_solver.py:214-258 | Both forms of the search (`skip` or not) reset the solver's fields and leave fields and locals equal to the outcome specified by `Explore`; an invalid request is refused and changes nothing. |
| `BeamSearch.GeneralSearchSolver.VisitChild` | scripts/perf_solver.py:237-253 | One child: budget check, evaluation unless skipped, completion or terminal refusal, deduplication, next frontier. |
| `BeamSearch.GeneralSearchSolver.VisitFrontier` | src/swaparch/solver/search.py:106-125 | One depth of the search: the frontier's nodes in order until the budget is used up. |
| `BeamSearch.GeneralSearchSolver.VisitNode` | src/swaparch/solver/search.py:107-123 | All children of one frontier node, stopping at the budget. |
| `BeamSearch.InitialFaithful` | src/swaparch/solver/search.py:99-100 | The initial node is where the empty plan leads. |
| `BeamSearch.ChildFaithful` | src/swaparch/solver/search.py:146-175 | A child's balances and states are those of replaying its steps on the initial states, unless that replay fails. |
| `BeamSearch.ChildrenFaithful` | src/swaparch/solver/search.py:146-175 | So are all children a node yields. |
| `BeamSearch.HeldInputIsInfeasible` | scripts/perf_solver.py:206-211 | The evaluator rejects every such node that still holds some of the input, refunds and failed replays included. |
| `BeamSearch.SkipIsInvisible` | scripts/perf_solver.py:214-258 | The skipping search and the plain one end with the same completions in the same order, terminal refusals, unsupported list, frontier, seen set, expansion count, truncation and beam flags. |
| `BeamSearch.ExploreIsSound` | src/swaparch/solver/search.py:85-128 | Expansions never exceed the budget and truncation means the budget is used up; every completion is a plan for this request that is an incumbent or that the evaluator finds feasible. |
| `SearchCoverage.ChildrenAreAll` | src/swaparch/solver/search.py:146-175 | A node's children are exactly what its payable steps lead to: a pool, two different tokens of it, a listed size between zero and what is held, and a positive output. |
| `SearchCoverage.RefusalsAreAll` | src/swaparch/solver/search.py:160-163 | The refusals that a node records are exactly those of its open offers. |
| `SearchCoverage.SearchIsHonest` | src/swaparch/solver/search.py:85-128 | Under any limits, with keys or without, either search completes only incumbents and accepted plans of chains of payable steps, with their length written down, and reports only unsupported swaps and terminal refusals that such chains lead to, none twice. |
| `SearchCoverage.SearchIsComplete` | src/swaparch/solver/search.py:85-128 | A search that says neither that it was truncated nor that its beam was pruned has judged every node that a chain of at most `max_steps` payable steps reaches, or one that its key takes for it, and recorded every unsupported swap on the way. |
| `SearchCoverage.SearchIsExact` | src/swaparch/solver/search.py:85-128 | Where no node has a key, such a search, skipping or not, completes exactly the accepted plans of those chains besides the incumbents, and its unsupported list and terminal refusals are exactly what the chains meet. |
| `SearchTwins.AcceptedBySpot` | src/swaparch/solver/search.py:244-250 | Over pools that share no capacity and include no LitePSM, whether the plan of a chain is accepted and what it pays is a matter of the balances at its node. |
| `SearchTwins.KeysLoseNoOutput` | src/swaparch/solver/search.py:244-250 | Recognising equal nodes by their keys loses no output: for every accepted plan of a chain such a search completes one that pays the same. |
| `SearchLimits.SearchCounts` | src/swaparch/solver/search.py:96-128 | Incumbents come first and in order, then plans in the order in which they were found, each with its own expansion number; the beam flag is raised only in a search that is not exhaustive and has expanded more nodes than its beam is wide; the frontier never exceeds the beam. |
| `SearchLimits.BudgetIsExact` | src/swaparch/solver/search.py:109-111 | A search that is not truncated is the same search under every budget that covers its expansions: truncation means that a child was left over. |
| `BeamSearch.TruncationStops` | src/swaparch/solver/search.py:109-111 | After truncation the rest of a node's children change nothing. |
| `BeamSearch.LevelStops` | src/swaparch/solver/search.py:124-127 | After truncation the rest of the frontier changes nothing. |
| `Routes.QuoteReads` | src/swaparch/solver/baseline.py:270-290 | A route's quote depends on no pool but its own. |
| `Routes.QuoteWrites` | src/swaparch/solver/baseline.py:270-290 | A route's quote changes no pool but its own. |
| `Routes.DisjointRoutesAdd` | src/swaparch/solver/baseline.py:221-257 | On routes without a common pool the sequential output is the sum of the two separate outputs, or absent where one of them is. |
| `Routes.QuoteSticks` | src/swaparch/solver/baseline.py:243-256 | A quote that is stuck stays stuck. |
| `Routes.CompileExtends` | src/swaparch/solver/baseline.py:338-361 | Compiling keeps the steps already there and adds one per hop, in order. |
| `Routes.EvaluatorFollows` | src/swaparch/solver/baseline.py:338-361 | If the evaluator gets through compiled steps, it has walked exactly the states, amounts and balances of the quote. |
| `Routes.PrefixRuns` | src/swaparch/evaluator/evaluate.py:38-76 | A plan that runs through does so step by step. |
| `Routes.CandidateIsPredicted` | src/swaparch/solver/baseline.py:292-322 | A candidate that the evaluator accepts reports exactly the amount predicted by the sequential quote. |
| `Candidates.FoundIffWorks` | src/swaparch/solver/baseline.py:292-322 | The candidate check finds a split of routes that serve the request if and only if the request is good, no part is negative, no two pools of the routes share a capacity, both quotes go through in order, and every pool on the way is on the chain and has a gas estimate; it then has the ordered output, and a plan of the first route's hops and then the second's, each with the amount quoted for it. |
| `Candidates.GetsThroughIff` | src/swaparch/solver/baseline.py:338-361 | The evaluator gets through a compiled route exactly if its quote does and all its pools answer; both are then at the same pools, with the same amount in hand. |
| `Capacity.CapacityOwners` | scripts/perf_solver.py:289 | The owner table of a route lists exactly its claims; it is absent exactly when a pool is unknown or two of the route's pools share a capacity. |
| `Capacity.Classify` | scripts/perf_solver.py:301-313 | The relation decided from owner tables is overlap, conflict or independence as defined on the routes themselves. |
| `Capacity.OwnersAreClear` | src/swaparch/solver/baseline.py:188-202 | Where every claim found its pool as owner, the route is executable and the table is complete. |
| `Capacity.ConflictIsRejected` | src/swaparch/solver/baseline.py:154-161 | The evaluator accepts no plan of a conflicting pair, whatever the amounts and order. |
| `SplitReports.RelationMeans` | src/swaparch/solver/baseline.py:204-219 | Overlapping pairs share a pool; of the others exactly those conflict that use an unknown pool or different pools with a capacity in common. |
| `SplitSearch.AmountGrid` | scripts/perf_solver.py:291-299 | The grid lists in increasing order, once each, exactly the amounts strictly inside the request that are a fraction or the complement of one, with the floor of integer division. |
| `SplitSearch.GridIsClosed` | scripts/perf_solver.py:291-299 | The complement of a grid amount is a grid amount. |
| `SplitSearch.ItemsCover` | scripts/perf_solver.py:339-340 | The scan visits exactly every grid amount with every pair. |
| `SplitSearch.ExhaustIsFirstMaximum` | src/swaparch/solver/baseline.py:184-185 | The reference result is the earliest trial with the largest accepted output, and absent only if no trial is accepted. |
| `SplitSearch.PredictionIsExact` | src/swaparch/solver/baseline.py:175-183 | Whatever a trial yields, its prediction was that very amount, so pruning by the prediction is safe. |
| `SplitSearch.SeparateIsOrdered` | src/swaparch/solver/baseline.py:171-174 | For independent pairs one sum of cached quotes predicts both orders. |
| `SplitSearch.NothingProposed` | src/swaparch/solver/baseline.py:154-161 | Passing over a conflicting pair passes over nothing. |
| `SplitSearch.ScanItemKeepsBest` | scripts/perf_solver.py:339-358 | One turn of the pruned scan leaves the better of what was there and of both its trials. |
| `SplitSearch.ScanIsExhaustive` | scripts/perf_solver.py:286-359 | The pruned, cached scan ends with exactly the exhaustive result, whichever keys the caches use. |
| `SplitSearch.BothAssignmentsAreTried` | scripts/perf_solver.py:348-358 | Every ordered pair of different routes is tried with every grid amount. |
| `SplitSearch.TrialsSpendTheRequest` | scripts/perf_solver.py:346 | Both parts of every trial add up to the request. |
| `SplitSearch.BaselineSolver.constructor` | src/swaparch/solver/baseline.py:35-49 | A new solver has no diagnostics. |
| `SplitSearch.BaselineSolver.BestSplit` | src/swaparch/solver/baseline.py:123-186 | The original loops with caches keyed by route: result and diagnostics are those of the specified scan. |
| `SplitSearch.BaselineSolver.BestSplitIndexed` | scripts/perf_solver.py:286-359 | The rewritten loops with caches keyed by index: result and diagnostics are those of the specified scan. |
| `SplitSearch.BaselineSolver.ScanPairs` | scripts/perf_solver.py:315-359 | The double loop with any cache key that names routes. |
| `SplitSearch.BaselineSolver.ScanRow` | scripts/perf_solver.py:340-358 | All pairs at one amount. |
| `SplitSearch.BaselineSolver.VisitItem` | scripts/perf_solver.py:341-358 | One amount and pair: conflicts reported once per key, overlaps quoted in both orders, independent pairs from the cache. |
| `SplitSearch.BaselineSolver.QuoteOnce` | scripts/perf_solver.py:318-322 | A cached quote is the quote, and its refusal is recorded only the first time. |
| `SplitSearch.BaselineSolver.TryTrial` | scripts/perf_solver.py:324-337 | Only a trial whose prediction beats the best is compiled, and only a strictly better one replaces it. |
| `SplitSearch.ClassifyPairs` | scripts/perf_solver.py:315 | The relation of every pair. |
| `SplitSearch.BaselineSolver.QuoteInOrder` | scripts/perf_solver.py:347-353 | An ordered quote is the plain one, whether the scope of the prefix memo is open or not. |
| `SplitSearch.BaselineSolver.TryInOrder` | scripts/perf_solver.py:347-353 | One order of an overlapping pair: quote, diagnostics and candidate of the specified turn. |
| `SplitSearch.BaselineSolver.TrySeparate` | scripts/perf_solver.py:355-358 | Both orders of an independent pair on one sum of cached quotes: those of the specified turn. |
| `SplitSearch.BaselineSolver.BestSplitMemoised` | scripts/perf_solver.py:185-193 | The rewritten split search inside the scope of the prefix memo, on prepared states or others, finds the same best and records the same diagnostics as without the memo, and leaves the scope as it was. |
| `SplitSearch.RunSearches` | scripts/perf_native.py:144-157 | Both layers stacked: all searches of a scope, whatever states they are on and whatever the memo holds by then, give the best plan and the diagnostics of the specified scan. |
| `SplitResults.SearchFindsTheBest` | src/swaparch/solver/baseline.py:123-186 | The split search has no result if and only if no split works: two different routes in some order, with a fraction of the request, or what one leaves of it, for the first and the rest for the second; otherwise it has the plan of one that works, and none that works pays more. |
| `SplitResults.TrialsAreSplits` | scripts/perf_solver.py:291-299 | What the scan tries is exactly those splits. |
| `SplitReports.SearchReports` | scripts/perf_solver.py:339-358 | The log of a search has every conflicting pair and every quote that stops, and besides those only trials that were tried and not accepted. |
| `SplitReports.RouteStops` | src/swaparch/solver/baseline.py:270-290 | A route without an amount stops at one hop, whose pool, offered amount and reason are reported, unless its output was malformed. |
| `SplitDiagnostics.EnumeratedRoutesServe` | src/swaparch/solver/baseline.py:60-69 | Every route that the solver enumerates, direct or through an intermediate token, leads from the input to the output token, which the exactness above assumes. |
| `SplitDiagnostics.EnumeratedRoutesAreAll` | src/swaparch/solver/baseline.py:60-69 | The solver enumerates exactly the pools that hold both tokens, and the pairs of pools that lead through a listed token other than those. |
| `SplitDiagnostics.BothFormsAreExhaustive` | scripts/perf_solver.py:282-359 | Original and rewritten split search return the same best plan: the first maximum of the exhaustive scan. |
| `SplitDiagnostics.DiagnosticsAgree` | scripts/perf_solver.py:288-322 | The diagnostics of the two forms agree on every venue if and only if no route in the list is doubled in a way the index-keyed caches count twice. |
| `SplitDiagnostics.EnumeratedRoutesAreDistinct` | src/swaparch/solver/baseline.py:60-69 | With unique pool ids and intermediates that are not repeated, the solver lists no route twice. |
| `SplitDiagnostics.EnumeratedDiagnosticsAgree` | src/swaparch/solver/baseline.py:51-86 | On the solver's own routes the two forms record the same diagnostics on every venue, unless the constructor was given an intermediate twice. |
| `SplitDiagnostics.RepeatedIntermediateDoubles` | src/swaparch/solver/baseline.py:43-46 | An intermediate given twice makes the solver list a route twice, and some venue then gets different diagnostics: a request and states that show it. |
| `SplitDiagnostics.ClearScansAgree` | scripts/perf_solver.py:288-322 | Without a doubled route the two scans go through the same results, diagnostics and caches up to renaming. |
| `SplitDiagnostics.DeadScanCounts` | scripts/perf_solver.py:318-322 | On a venue that refuses everything each cache entry, conflict and overlapping order leaves one diagnostic. |
| `SplitDiagnostics.DoubledShrinksACache` | src/swaparch/solver/baseline.py:131 | With a doubled route some cache keyed by route value is strictly smaller than its index-keyed counterpart. |
| `SplitDiagnostics.CachesAreImages` | src/swaparch/solver/baseline.py:131 | The caches keyed by value hold the images of the index-keyed ones. |
| `OrderedPrefix.UpdatesRebuildTheStates` | scripts/perf_solver.py:176-177 | The original map overlaid with a cached route's updates is the map after that route, also when it revisits a pool; refusals are the same. |
| `OrderedPrefix.AdmittedMapIsTheUniverse` | scripts/perf_solver.py:185-189 | While the prepared states live, the id comparison admits exactly the prepared map. |
| `OrderedPrefix.OrderedPrefixMemo.constructor` | scripts/perf_solver.py:77-80 | Empty at first. |
| `OrderedPrefix.OrderedPrefixMemo.Get` | scripts/perf_solver.py:82-88 | A lookup is a hit exactly for a present key. |
| `OrderedPrefix.OrderedPrefixMemo.Put` | scripts/perf_solver.py:90-92 | Insertion stops at capacity; nothing is evicted or overwritten once full. |
| `OrderedPrefix.PrefixScope.constructor` | scripts/perf_solver.py:129-139 | A scope starts with an empty memo. |
| `OrderedPrefix.PrefixScope.Enter` | scripts/perf_solver.py:186-189 | A dictionary is allowed exactly when it holds the prepared states. |
| `OrderedPrefix.PrefixScope.Leave` | scripts/perf_solver.py:192-193 | On the way out no dictionary stays allowed. |
| `OrderedPrefix.PrefixScope.ExecuteRoute` | scripts/perf_solver.py:141-156 | The hop loop yields amount, updates or refusal of plain execution. |
| `OrderedPrefix.PrefixScope.FirstRoute` | scripts/perf_solver.py:163-168 | From the memo or executed, the first route leaves what it leaves on the prepared states. |
| `OrderedPrefix.PrefixScope.MemoisedOutput` | scripts/perf_solver.py:161-183 | Same amount and same diagnostics in the same order as running both routes hop by hop on a fresh copy, on hit, miss, cached refusal and full memo. |
| `OrderedPrefix.PrefixScope.OrderedOutputMemo` | scripts/perf_solver.py:158-183 | The same for any dictionary: only the one allowed last, told by its identity, is served from the memo, and every other takes the plain path. |
| `OrderedPrefix.PrefixScope.BestSplit` | scripts/perf_solver.py:185-193 | A dictionary is allowed, while its split runs, exactly when it holds the prepared states; all ordered quotes made meanwhile, on it or on others, are the plain ones. |
| `OrderedPrefix.RunSplits` | scripts/perf_solver.py:129-201 | Any run of splits in one scope, on the prepared states or on others, with any capacity, equals the plain run in all amounts and all diagnostics. |
| `RecencyLists.RecencyIsByLastUse` | scripts/perf_solver.py:57-70 | The reference order of keys: each used key once, by its last use. |
| `RecencyLists.WindowSlides` | scripts/perf_solver.py:66-70 | Dropping a key, appending it and trimming the front keeps exactly the most recent keys. |
| `RecencyLists.QueueTurns` | scripts/eval_quote_performance.py:57-63 | Popping the front before appending keeps exactly the last insertions. |
| `EvaluationCache.ProvenanceIsIgnored` | scripts/perf_solver.py:102-103 | Two plans with the same request and steps get the same evaluation up to the attached plan, whatever solver and search info say. |
| `EvaluationCache.EvaluationMemo.constructor` | scripts/perf_solver.py:52-55 | Empty at first. |
| `EvaluationCache.EvaluationMemo.Get` | scripts/perf_solver.py:57-64 | A hit moves the key to the end; the memo still holds exactly the most recently used distinct keys in recency order. |
| `EvaluationCache.EvaluationMemo.Put` | scripts/perf_solver.py:66-70 | Inserting evicts at most the least recently used key and changes no other value. |
| `EvaluationCache.MemoisedEvaluator.constructor` | scripts/perf_solver.py:99-107 | A scope starts with an empty memo. |
| `EvaluationCache.MatchedTupleIsPrepared` | scripts/perf_solver.py:105-111 | While the prepared states live, the comparison of ids admits exactly tuples of those very states in their order. |
| `EvaluationCache.MemoisedEvaluator.EvaluateMemo` | scripts/perf_solver.py:109-119 | Whatever iterable is passed, the memoised evaluation is the direct one on its states, with the caller's own plan attached; the memo is used exactly for the prepared tuple. |
| `EvaluationCache.EvaluateAll` | scripts/perf_solver.py:99-125 | For every sequence of calls, on the prepared tuple and on others, and every capacity, all evaluations are the direct ones, and the memo ends with exactly the up-to-`maxsize` most recently used distinct keys of the prepared calls in recency order. |
| `SwapMemos.SwapMemo.constructor` | scripts/eval_quote_performance.py:40-44 | Empty at first. |
| `SwapMemos.SwapMemo.Clear` | scripts/eval_quote_performance.py:46-49 | Empty again. |
| `SwapMemos.SwapMemo.Get` | scripts/eval_quote_performance.py:51-57 | A lookup is a hit exactly for a present key. |
| `SwapMemos.SwapMemo.Put` | scripts/eval_quote_performance.py:59-65 | `order` stays a duplicate-free listing of the keys of `values`: the last `maxsize` insertions, the new one last and the oldest dropped where the memo was full. A new key fails exactly when the capacity is zero (pop from an empty list). |
| `InitialSwaps.InitialSwapMemo.constructor` | scripts/eval_quote_performance.py:75-77 | A scope starts with an empty memo. |
| `InitialSwaps.InitialSwapMemo.Swap` | scripts/eval_quote_performance.py:79-90 | A swap through the memo is the plain swap: an address of a prepared state can only be that state while the scope keeps it alive. |
| `InitialSwaps.RunSwaps` | scripts/eval_quote_performance.py:71-98 | Every sequence of calls gives the plain results, and raises if and only if the capacity is zero and some prepared state of a patched class swaps successfully. |
| `Identity.KeysAreErasedContents` | scripts/perf_state_memo.py:117-135 | Two states known to the table get equal keys if and only if class, record object, token objects and all scalar fields but `fee_protocol` agree and their tick maps have equal entries. |
| `Identity.KeysAreContents` | scripts/perf_state_memo.py:117-135 | Two states known to the table are equal in content if and only if their keys are equal and they are not `PancakeV3State`s that differ in `fee_protocol`. |
| `Identity.PancakesCollide` | src/swaparch/adapters/pancake_v3.py:98-107 | The field that the subclass adds is not in the key: two of its states that differ in it alone have one key and two contents, in every table that knows them. |
| `Identity.KeyIsStable` | scripts/perf_state_memo.py:90-98 | A key stays a state's key however the table grows. |
| `Identity.AddressedLookup` | scripts/perf_state_memo.py:58-63 | Looking a live object's address up finds that object or nothing, so the assertion never fails. |
| `Identity.AddressedAppend` | scripts/perf_state_memo.py:64-67 | Interning keeps one address per retained object. |
| `Identity.Identities.constructor` | scripts/perf_state_memo.py:51-56 | Empty at first. |
| `Identity.Identities.Intern` | scripts/perf_state_memo.py:58-67 | The returned index holds the very object; a known object adds nothing. |
| `Identity.Identities.InternObject` | scripts/perf_state_memo.py:58-67 | Records and tokens intern without disturbing keys already issued. |
| `Identity.Identities.InternMap` | scripts/perf_state_memo.py:69-82 | A tick map gets the index of the canonical map with the same entries. |
| `Identity.Identities.CanonicalMap` | scripts/perf_state_memo.py:84-88 | The canonical map has the same entries and is retained. |
| `Identity.Identities.Freeze` | scripts/perf_state_memo.py:163-171 | The patched freezer returns a retained map with the same entries, copied first unless it is one of the scope's own. |
| `Identity.Identities.CommonKey` | scripts/perf_state_memo.py:119-125 | The shared part of V3 and V4 keys. |
| `Identity.Identities.PlainKey` | scripts/perf_state_memo.py:129-135 | The key of any other state: its class, record and fields in order, tokens by identity. |
| `Identity.Identities.ComputeKey` | scripts/perf_state_memo.py:117-135 | Computing a key interns what it needs and yields the specified key; its first branch takes the subclass with its own type and without its own field. |
| `Identity.Identities.KeyOfState` | scripts/perf_state_memo.py:90-98 | Cached or recomputed, also after the cache was cleared, a live state's key is the one it was ever issued. |
| `Identity.Identities.SurvivesCollection` | scripts/perf_state_memo.py:48-67 | Whatever is not retained may die and its address return, and the table stays valid. |
| `Identity.Identities.IssuedKeysAreContents` | scripts/perf_state_memo.py:101-135 | Over a whole scope, any two states ever keyed, dead or alive, have equal keys if and only if their contents are equal apart from the `fee_protocol` of the subclass; contents are equal if and only if keys are and that field does not differ. |
| `Identity.Identities.FreezeMaps` | scripts/perf_state_memo.py:163-171 | A successor state's two tick maps come out with their entries unchanged. |
| `Identity.Identities.Admit` | scripts/perf_state_memo.py:150-157 | Entering the scope interns the prepared states' records and maps. |
| `StateMemo.StateSwapMemo.constructor` | scripts/perf_state_memo.py:139-160 | A scope starts with an empty table and memo. |
| `StateMemo.StateSwapMemo.KeyOf` | scripts/perf_state_memo.py:175 | Keying a live state leaves every recorded entry in place. |
| `StateMemo.StateSwapMemo.MoveTo` | scripts/perf_state_memo.py:48-56 | Any heap that spares what the scope and the program hold keeps the memo valid. |
| `StateMemo.StateSwapMemo.LookupFinds` | scripts/perf_state_memo.py:175-176 | An entry is found under a state's key exactly where the memo as a value has a line for what that key shows, and it shows that line's result. |
| `StateMemo.StateSwapMemo.Perform` | scripts/perf_state_memo.py:182-187 | A recomputed swap shows the plain result on a state with the plain successor's content. |
| `StateMemo.StateSwapMemo.Remember` | scripts/perf_state_memo.py:185-188 | Result or `Unsupported` arguments are queued under the issued key, and the oldest entry leaves a full memo; recording fails exactly at capacity zero. |
| `StateMemo.StateSwapMemo.Swap` | scripts/perf_state_memo.py:173-189 | A memoised swap on live objects serves exactly what the memo as a value serves, keeps exactly what it keeps, and fails exactly where it has no room. |
| `StateMemo.StateSwapMemo.LetGo` | scripts/perf_state_memo.py:48-56 | The memo stays valid when the program lets go of states. |
| `StateMemo.KeptMirrors` | scripts/perf_state_memo.py:173-189 | What the program keeps stays content-equal to what it keeps on values. |
| `StateMemo.SwapKeepsStep` | scripts/perf_state_memo.py:173-189 | One swap that shows the service keeps what the program holds, what it has seen and the memo in step with the run on values. |
| `StateMemo.Turn` | scripts/perf_state_memo.py:173-189 | One step of an adaptive program: it lets go of what it does not keep, an arbitrary collection may free all but the kept states and what the scope itself retains, and it swaps on a kept state. |
| `StateMemo.RunProgram` | scripts/perf_state_memo.py:139-201 | Every adaptive program, which feeds successors back in and lets go of states as it likes, under any reuse of the addresses of states that were keyed and then died, observes exactly what the memo as a value serves. On prepared states that agree (`Agreeing`) that is the plain run, for every capacity but zero and any eviction; it raises if and only if the capacity is zero and the plain run swaps at all. |
| `SwapPrograms.CrashesIffNoCapacity` | scripts/eval_quote_performance.py:59-65 | The memo fails exactly in a run that swaps at all with capacity zero, agreeing states or not. |
| `SwapPrograms.ServedIsPlain` | scripts/perf_state_memo.py:173-189 | On states that agree, a hit is the plain result of the very content that is swapped. |
| `SwapPrograms.AgreeingRunsArePlain` | src/swaparch/adapters/pancake_v3.py:116-139 | `PancakeV3State` successors keep everything but price, tick and liquidity; so if prepared ones that share all of that also share `fee_protocol`, every run with the memo is the plain run. |
| `SwapPrograms.TransparentIffAgreeing` | scripts/perf_state_memo.py:117-127 | A memo with room is invisible to every program, under every swap function that keeps what those states keep, if and only if the prepared states agree in that way. |
| `SwapPrograms.DisagreementShows` | src/swaparch/adapters/pancake_v3.py:116-139 | Where two do not agree, three swaps show it, with any capacity but zero: the memo answers the third with the successor of the other state. |
| `SwapPrograms.RunsAgreeButForTheField` | src/swaparch/adapters/pancake_v3.py:98-139 | If no swap and no choice of the program reads `fee_protocol`, then on any prepared states a run with the memo pays the plain amounts, raises the plain refusals and holds states that differ from the plain ones in that field at most. |
| `StateMemo.EnterScope` | scripts/perf_state_memo.py:150-157 | The set-up loop over the prepared states leaves a valid, empty memo. |
| `StateMemo.LawfulEnvironmentsExist` | scripts/perf_state_memo.py:48-49 | The requirement put on allocator and collector is met by one that frees everything it may and gives the address of a dead state to a live one with another content. |
| `Collector.OneAttemptIsAdded` | scripts/historical_study.py:369-411 | Beginning and recording a job adds exactly one attempt; earlier ones, interrupted or not, stay. |
| `Collector.RowsAreExtended` | scripts/historical_study.py:369-411 | Beginning and recording a job extends a row's attempt list by its result, and an old row without a list becomes its first attempt. |
| `Collector.RunsAreAccounted` | scripts/historical_study.py:418-493 | In every run: skipped, submitted and at most one stopped position are exactly the consumed prefix of the plan, each once; active jobs are the submitted ones not yet recorded. |
| `Collector.RunsAreBounded` | scripts/historical_study.py:422-445 | Active jobs never exceed the workers, submissions never exceed the run limit, and no second job starts before the bootstrap job is recorded. |
| `Collector.JobsAreSeededByEarlierBlocks` | scripts/historical_study.py:428-445 | With an increasing plan every job is seeded by a smaller block. |
| `Collector.SeedNeverDecreases` | scripts/historical_study.py:484-487 | With an increasing plan the shared seed's block number never decreases over any stretch of any run. |
| `Collector.SeedIsNewest` | scripts/historical_study.py:428-445 | With an increasing plan the seed is always the greatest block whose report was loaded or returned so far, and each job is given the one of its time. |
| `Collector.EachJobAddsOneAttempt` | scripts/historical_study.py:369-411 | With a plan of different blocks, each block's attempt history is its old one, plus one in progress while active, plus one result afterwards. |
| `Collector.RunAddsItsOutcome` | scripts/historical_study.py:369-411 | A run cut off anywhere has added to each block's history exactly what its last step on that block says. |
| `Collector.RestartsKeepEveryAttempt` | scripts/historical_study.py:369-493 | Over any series of invocations, killed at any step and restarted with any selection, a block's history is the one it had plus one attempt for each invocation that took it up, interrupted ones included. |
| `Collector.ReturnedRunsAreRecorded` | scripts/historical_study.py:468-493 | When no job is active every submitted block has been recorded exactly once. |
| `Collector.NoBlockIsSubmittedTwice` | scripts/historical_study.py:426-445 | With a plan of different blocks no block number is submitted twice. |
| `Collector.ReadyAreSkipped` | scripts/historical_study.py:357-366 | Over a plan of different blocks, exactly the blocks that are ready at the start are skipped; no submitted one was. |
| `Collector.CompleteRunsCover` | scripts/historical_study.py:418-493 | A run that ends without an active job, a stop or a used-up limit leaves every block of the plan ready from the start or with a new result. |
| `Collector.NextPending` | scripts/historical_study.py:418-446 | The scan skips ready blocks and returns the next other one, or nothing only when stopped, at the limit or at the end of the plan. |
| `Collector.RecordResult` | scripts/historical_study.py:480-491 | Recording takes one job out of the pool, also when it raises. |
| `Collector.Fill` | scripts/historical_study.py:470-476 | Filling takes only steps of the system and ends with a full pool or nothing left. |
| `Collector.Drain` | scripts/historical_study.py:479-491 | Draining records at least one finished job, in any order. |
| `Collector.CollectStates` | scripts/historical_study.py:448-493 | The collector takes only steps of the system, terminates for every completion order, and without an interrupt returns with no job active and nothing more to take. |
| `Summaries.Manifest.constructor` | scripts/historical_study.py:64-81 | An empty manifest. |
| `Summaries.Manifest.Checkpoint` | scripts/historical_study.py:109-125 | A checkpoint replaces the block's shard and keeps every row the count of its shard. |
| `Summaries.Manifest.Summarize` | scripts/historical_study.py:64-81 | The version 2 summary is one pass over the rows. |
| `Summaries.TotalsReorder` | scripts/historical_study.py:64-81 | Totals over distinct rows do not depend on their insertion order, and absent rows count nothing. |
| `Summaries.VersionsAgree` | scripts/historical_study.py:64-106 | Every version 2 total is the version 1 recount, except that planned also counts entries with an unforeseen status and that known requests leave out a boolean `true`; planned is never negative. |
| `Summaries.VersionsAgreeWithoutForeign` | scripts/historical_study.py:64-106 | The two versions agree if and only if every status is planned, completed or failed and no request count is a boolean `true`. |
| `SummaryMeanings.SummaryCounts` | scripts/historical_study.py:91-106 | The recount is the number of planned jobs of each status, a missing entry being planned, and the sum of the request counts of all attempts of all stages, booleans as 0 or 1. |
| `Summaries.SummarizeRun` | scripts/historical_study.py:64-125 | After any sequence of checkpoints, repeated blocks included, the version 2 summary is that adjusted recount of the latest blocks. |
| `DenseRun.SerialRowsAreSorted` | scripts/five_crash_liquidity.py:1035-1037 | The assembled rows are strictly ascending, so the final sorts change nothing. |
| `DenseRun.RowsAreTheWanted` | scripts/five_crash_liquidity.py:958-975 | A run has rows exactly if something is wanted and all of it lies within the event; they are one row for each wanted block and no other, by ascending block. |
| `DenseRun.DenseRunner.constructor` | scripts/five_crash_liquidity.py:987-989 | No checkpoint at first. |
| `DenseRun.DenseRunner.Resume` | scripts/five_crash_liquidity.py:991-1001 | Exactly the wanted records with the fingerprint and intact artifacts are resumed. |
| `DenseRun.DenseRunner.RunPool` | scripts/five_crash_liquidity.py:1003-1030 | In any completion order, with a crash possible after any step, the checkpoint only ever holds processed records, keeps every resumed one, and is complete when the pool ends. |
| `DenseRun.DenseRunner.RunEvent` | scripts/five_crash_liquidity.py:958-1037 | A run that does not crash returns the serial rows of the sorted, de-duplicated wanted blocks; accepted checkpoint records survive; a rewritten checkpoint holds only this run's blocks and fingerprint. |
| `DenseRun.AssembleRows` | scripts/five_crash_liquidity.py:1032-1037 | One row per wanted block, in order. |
| `DenseRun.RunEvents` | scripts/five_crash_liquidity.py:958-1037 | Over any sequence of runs with changing jobs, fingerprints, lost artifacts and any number of crashes, every run that returns gives its own serial rows. |
| `BlockSearch.PinIsGreatest` | scripts/recent_oracle_check.py:91-94 | A pinned block is the only one, and the greatest block not after the target. |
| `BlockSearch.LowReachableIff` | scripts/recent_oracle_check.py:103-105 | The low side can be reached exactly if some number of steps down from an existing bound meets a block at or before the target. |
| `BlockSearch.HighReachableIff` | scripts/recent_oracle_check.py:106-107 | The high side can be reached exactly if some number of steps of 20 up from an existing bound meets a block after the target. |
| `BlockSearch.HeaderCache.constructor` | scripts/recent_oracle_check.py:84-98 | Any cache that agrees with the chain. |
| `BlockSearch.HeaderCache.Get` | scripts/recent_oracle_check.py:95-98 | The cache agrees with the chain after every read and never forgets. |
| `BlockSearch.HeaderCache.LowerBound` | scripts/recent_oracle_check.py:103-105 | Stepping down finds a block at or before the target exactly when some step meets one. |
| `BlockSearch.HeaderCache.UpperBound` | scripts/recent_oracle_check.py:106-107 | Stepping up finds a block after the target exactly when some step meets one. |
| `BlockSearch.HeaderCache.Narrow` | scripts/recent_oracle_check.py:109-131 | From a proper bracket the interpolation loop terminates for every value of the guess, pins the target and never reaches its final error, although the upper bound is only after the target by its successor once it has moved. |
| `BlockSearch.HeaderCache.FindBlock` | scripts/recent_oracle_check.py:84-131 | For a non-decreasing chain the search succeeds if and only if stepping by 20 from its bounds meets a bracket; then it returns the greatest block not after the target, else the node's own error. |
| `BlockSearch.HeaderCache.EstimateBracket` | scripts/five_crash_oracle_check.py:277-298 | The first bracket: 40 blocks on either side of a calibrated guess, absent exactly when the guessed block does not exist. |
| `BlockSearch.HeaderCache.ResolveOne` | scripts/five_crash_oracle_check.py:309-328 | One search of the resolver succeeds exactly when both of its bounds can be stepped to the target's sides; the bounds-violated error is unreachable. |
| `BlockSearch.HeaderCache.NextIsBracketed` | scripts/five_crash_oracle_check.py:305-307 | From the pin before, the low side of the next search is always there, so only the probe 100 blocks up decides. |
| `BlockSearch.HeaderCache.ResolveShared` | scripts/five_crash_oracle_check.py:262-350 | For every increasing target list and every cache that agrees with the chain, the resolver succeeds if and only if the first target can be bracketed from its estimate and each later one by stepping up from 100 blocks past the pin before; then every pin satisfies chosen <= target < next and pins do not decrease, and the only error is otherwise the node's own. |
| `BlockSearch.PinnedTargetsCanFail` | scripts/five_crash_oracle_check.py:305-307 | Near the head of the chain that probe fails although every target has its pin: a chain and targets that show it. |
| `BlockSearch.HeaderCache.PinBefore` | scripts/recent_oracle_check.py:165-173 | A search between carried bounds cannot fail, and the carried lower bound is already valid. |
| `BlockSearch.HeaderCache.ResolveRecent` | scripts/recent_oracle_check.py:134-191 | The 145-target resolver succeeds if and only if its first lower bound is reachable; then the last pin is the anchor, the others pin their targets and none decreases. |
| `BlockSearch.HeaderCache.TargetsIncrease` | scripts/recent_oracle_check.py:141-143 | Its targets increase step by step up to the anchor's time. |
| `BlockSearch.HeaderCache.EstimateIsEarly` | scripts/recent_oracle_check.py:147-154 | On a chain whose blocks are at least 12 seconds apart, an estimate that exists lies at least 1,189 seconds before the oldest target, so the resolver cannot fail. |
| `Candles.Extract` | scripts/select_binance_crashes.py:392-421 | The extraction succeeds exactly when every minute of the window is there, and then lists them consecutively; otherwise it names a missing one. |
| `Candles.ByOpenKeepsTheLast` | scripts/select_binance_crashes.py:391-393 | The dictionary has the opening times of the bars, each with the last bar that has it. |
| `Candles.BisectRight` | scripts/five_crash_oracle_check.py:206 | The split point of a binary search, on any list. |
| `Candles.TimesAgree` | scripts/five_crash_oracle_check.py:128-259 | A minute is read the same from seconds as from milliseconds, and by its opening as by its close: it completes 60 seconds after its opening. |
| `Candles.MatchCandle` | scripts/five_crash_oracle_check.py:128-259 | Which status is returned when; a match is a completed candle whose successor is not completed, with its exact lag, close and close time; on files in completion order it is the latest completed candle, and there is none exactly when the first is still to complete; `future_candle_rejected` is unreachable. |
| `Candles.CoverWindow` | scripts/select_binance_crashes.py:332-421 | For every trough minute a successful extraction has exactly 1,442 consecutive candles. If all opening times are at most 10,000,000,000, the matcher returns one with lag under 60 seconds exactly for block times from 59 seconds before the window to 60 seconds after it, always the latest completed one and never a future one; if not, the window's last minute is missed. |
| `Candles.WindowIsCentred` | scripts/select_binance_crashes.py:481-482 | The window is a day long and centred on the close of the trough minute. |
| `Candles.WindowTargets` | scripts/five_crash_oracle_check.py:73-87 | 145 targets one step apart exactly for a span of 144 steps, the ends included. |
| `Candles.MatchTarget` | scripts/five_crash_oracle_check.py:73-87 | For every target of the 24-hour window, a block up to 59 seconds before it is matched with the latest candle completed by then, less than a minute old. |
| `StableSorts.SortedIsOrdered` | scripts/select_binance_crashes.py:276 | Sorting by a key orders. |
| `StableSorts.SortedIsStable` | scripts/select_binance_crashes.py:276 | Elements with equal keys keep the order they came in, also under `reverse=True`. |
| `CrashSelection.RankAndSelect` | scripts/select_binance_crashes.py:265-297 | Ranking and greedy loops compute the first `count` kept hours of the whole ranking in order of time, or nothing, where an hour is kept exactly when no kept hour before it is too close. |
| `CrashSelection.PicksAreSeparated` | scripts/select_binance_crashes.py:278-290 | Picks are pairwise at least the separation apart, in days. |
| `CrashSelection.TooCloseInTime` | scripts/select_binance_crashes.py:284 | In seconds: hours at most separation - 1 days apart are always too close, and hours that are too close are less than separation days apart. |
| `CrashSelection.SkippedIsCovered` | scripts/select_binance_crashes.py:279-287 | A skipped hour is too close to an already picked one with no smaller drop. |
| `CrashSelection.SelectionIsWellFormed` | scripts/select_binance_crashes.py:292-297 | The exported crashes are `count` hours of the universe, pairwise separated, in order of time. |
| `CrashSelection.SelectionIsGreedy` | scripts/select_binance_crashes.py:276-297 | Every hour of the universe is exported, or too close to an exported one that fell at least as far, or fell no further than any exported one. |
| `CrashSelection.TiesKeepTheirOrder` | scripts/select_binance_crashes.py:276 | Hours with equal drops are ranked in the order of the universe. |
| `CrashSelection.PicksAreLexicographicallyFirst` | scripts/select_binance_crashes.py:278-290 | Against any other separated choice: at the first rank where the two differ, the greedy one has the hour and the other has not. |
| `CrashSelection.EnoughDaysSuffice` | scripts/select_binance_crashes.py:292-293 | The selection cannot fail when the universe has more than (count - 1) * (2 * separation - 1) distinct days. |
| `CrashSelection.EnoughDaysIsSharp` | scripts/select_binance_crashes.py:292-293 | With exactly that many days it can fail, for every count and separation. |
| `SwapEvents.V2AgreesWithV3` | scripts/october_swap_events.py:280-306 | A V2 log that decodes means the same trade as its net amounts under the V3 rule, and is refused exactly when that rule refuses or a token moved both ways. |
| `SwapEvents.UnsignedIsBigEndian` | scripts/october_swap_events.py:184 | A word read as unsigned has its bytes as base 256 digits, the first one highest, and nothing above them. |
| `SwapEvents.SignedRange` | scripts/october_swap_events.py:182-183 | A word read as signed lies between -2^255 and 2^255 - 1 and differs from the unsigned value by 0 or 2^256. |
| `SwapEvents.VerdictIff` | scripts/october_swap_events.py:956-1023 | A log is refused exactly for the first of eleven checks that it fails, in their order; if it passes all, it is decoded, unless it is a V3 log whose price word is zero, which raises. |
| `SwapEvents.DecodedMeans` | scripts/october_swap_events.py:169-333 | The trade of a decoded log says what its words at the positions of WETH and USDC in the pool's pair say: V3 volumes are the absolute values of two signed amounts of opposite signs, V2 volumes what came in and went out, and WETH is sold exactly if the pool gained it. |
| `SwapEvents.DecodedIsSound` | scripts/october_swap_events.py:961-1023 | A decoded swap is the log's event in a catalogue pool of the canonical interval with the canonical block hash and positive volumes. |
| `SwapEvents.Deduplicate` | scripts/october_swap_events.py:934-945 | The loop keeps the first log of every identity, in order. |
| `SwapEvents.DedupedKeepsEachIdentityOnce` | scripts/october_swap_events.py:934-945 | Every identity of the raw logs is kept exactly once. |
| `SwapEvents.DedupedKeepsTheFirst` | scripts/october_swap_events.py:934-945 | A log is kept exactly if it is the first with its identity. |
| `SwapEvents.DecodeAll` | scripts/october_swap_events.py:956-1023 | The pass reports one swap for each decodable log and one reason for each other, in order; it raises exactly when a decodable V3 log has no price. |
| `SwapEvents.AssignOrdinals` | scripts/october_swap_events.py:1025-1030 | Each swap is numbered by the earlier swaps of its block. |
| `SwapEvents.CollectSwaps` | scripts/october_swap_events.py:932-1030 | Deduplicate, sort, decode and number: the report specified by `IsReport`, or an abort exactly when a kept log raises. |
| `SwapEvents.LogsAreAccountedFor` | scripts/october_swap_events.py:932-1023 | Each raw log repeats an earlier one, or is reported exactly once: as a rejection with the reason of a check that it fails, or as the swap of the same event, with the direction and volumes that its words say. |
| `SwapEvents.OrdinalsFollowTheChain` | scripts/october_swap_events.py:947-954 | Swaps are in order of block, transaction and log, and ordinals increase with them within a block. |
| `SwapEvents.OrdinalsAreTheBlocksNumbers` | scripts/october_swap_events.py:1025-1030 | The ordinals of a block with n swaps are exactly 0 to n - 1. |
| `SwapBuckets.CombinedIsTotal` | scripts/october_swap_events.py:1046-1079 | Buy and sell volumes add up to the total of all swaps of a bucket. |
| `SwapBuckets.SidesAreTallied` | scripts/october_swap_events.py:1046-1062 | The two sides of a bucket are the counts and exact integer volumes of its purchases and of its sales. |
| `SwapBuckets.PriceIsUsdcPerWeth` | scripts/october_swap_events.py:1053 | A price is whole USDC per whole WETH, with 6 and 18 decimals. |
| `SwapBuckets.Buckets` | scripts/october_swap_events.py:1110-1140 | One bucket per key, empty ones included, whose combined rows add up to the sum over the keys. |
| `SwapBuckets.BucketsAddUp` | scripts/october_swap_events.py:1081-1203 | Buckets by distinct keys add up to the total of the swaps that have one of the keys: counts and exact integer volumes. |
| `SwapBuckets.NothingIsLostIff` | scripts/october_swap_events.py:1081-1203 | Buckets add up to the overall totals if and only if every swap has one of the keys. |
| `SwapBuckets.BlockBucketsConserve` | scripts/october_swap_events.py:1110-1140 | Block buckets of the canonical interval add up to the totals. |
| `SwapBuckets.PoolBucketsConserve` | scripts/october_swap_events.py:1081-1108 | Pool buckets add up to the totals. |
| `SwapBuckets.SizeBinsConserve` | scripts/october_swap_events.py:1177-1203 | The four size bins add up to the totals, however the WETH volume was rounded. |
| `SwapBuckets.BinOf` | scripts/october_swap_events.py:1177-1183 | Exactly one of the four size predicates holds of any volume. |
| `SwapBuckets.GroupByMinute` | scripts/october_swap_events.py:1142-1146 | The dictionary of groups holds, for each minute, its swaps in order. |
| `SwapBuckets.MinuteBucketsConserveIff` | scripts/october_swap_events.py:1148-1175 | Minute buckets exist only for the listed minutes: they add up to the totals if and only if every swap falls in one. |
| `SwapBuckets.PricedIffNotEmpty` | scripts/october_swap_events.py:1046-1062 | A price is absent exactly for an empty bucket. |
| `SwapBuckets.CombinedPriceLiesBetween` | scripts/october_swap_events.py:1064-1079 | The combined exact price lies between the least and the greatest bucket price, for every partition by a key. |
| `BatchMatches.MatchBatch` | scripts/benchmark_rpc_batches.py:141-162 | The scan with its dictionary of found ids: the responses in request order, or the first problem in body order. |
| `BatchMatches.ScanFinds` | scripts/benchmark_rpc_batches.py:146-158 | The scan gets through exactly when every item is an object with an integer id that was asked for and is new, with a result and no error; it then holds just those. |
| `BatchMatches.AcceptsExactlyTheAnswers` | scripts/benchmark_rpc_batches.py:141-162 | A batch with distinct ids accepts exactly the bodies whose ids are a permutation of the payload's, each with a result and no error (section 6, Batch, of the JSON-RPC 2.0 Specification). |
| `BatchMatches.FailureIsTheFirst` | scripts/benchmark_rpc_batches.py:141-162 | A refused body is no list, or its first item that does not fit has the problem that is raised, or it leaves exactly the named ids without an answer. |
| `BatchMatches.ResponsesFollowRequests` | scripts/benchmark_rpc_batches.py:162 | The i-th returned response is the one the body holds for the i-th request's id. |
| `BatchMatches.OrderIsImmaterial` | scripts/benchmark_rpc_batches.py:141-162 | Two orders of the same answers give the same result. |
| `BatchMatches.Parallel` | scripts/benchmark_rpc_batches.py:123-138 | In every completion order the rows come out in block order and every request is counted once; an exception of any worker is raised. |

## Left out

- Adapters, AMM arithmetic and gas: `swap` and `gas_estimate` are arbitrary functions of the pool state, so swap outputs and action sizes that are not Python integers are outside the model, and with them the type checks on them.
- Token symbols inside reason texts: reasons are values, so two stranded tokens with one symbol and one amount stay two reasons, where the search drops the second of two equal texts.
- Action sizes, node key and beam order of the search are parameters of `BeamSearch.Settings`; `_backward_values` and the capacity boundary only feed them.
- What follows the search proper (baseline completions, `_rank_unique`, `last_diagnostics`) is a function of the modelled outcome and is not modelled.
- `search_static_metadata`: keyed on a bare `id(state)` without retaining the state, so it is transparent only under a retention the code does not enforce.
- State classes that the swap-memo scope does not patch: their swaps are plain.
- `_StateKey`'s precomputed hash; equality of keys is what is modelled.
- Record, token and dataclass contents: opaque data compared by the language's own equality; a state that is not a dataclass (a `TypeError` in the source) is not a state of the model.
- The tick cache of the quote harness and its timing statistics: an `lru_cache` of a pure function.
- `BlockSearch.HeaderCache.EstimateBracket`: the first guess and its calibration, computed in floating point, are arbitrary functions of the cache, the target and the guessed block; every interpolated guess is an arbitrary number before it is clamped.
- Summary fields besides the totals (coverage flags, versions, identities), and the shard file names: a shard is one atomic value.
- `Collector.NextPending`: what a completed block's row must show besides to count as ready is an arbitrary function of block and row, the same throughout a run; the disk check and the job results are arbitrary choices; hashes, inventories and log files are not modelled.
- `Collector.RestartsKeepEveryAttempt`: a begin or record writes shard and manifest at once; a kill between the two writes is not modelled.
- `DenseRun.DenseRunner.Resume`: a checkpoint file is a map or absent; a malformed file that the source ignores half way through is not modelled, and whether a record's artifacts are still unchanged is an arbitrary function.
- `SwapBuckets.SizeBinsConserve`: floating-point rounding of the WETH volume is an arbitrary function; prices are exact quotients instead of floats.
- Hexadecimal parsing and lower-casing of log fields, and the prices derived from a decoded log.
- `BatchMatches.MatchBatch`: HTTP status handling and retries around it; a JSON `true` as an id, which the source reads as 1, is the id 1.
- RPC, files, locks, clocks, subprocesses, HTML, CSV and SVG reports, the frontend, fixed catalogues, and the discovery and qualification scripts: input and output, or finite data.
- The dual solver, the continuous V3 bound and the LitePSM support of the router: not on the path of the scripts modelled here.
