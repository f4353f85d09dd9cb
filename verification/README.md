# Verified model of the EasyCode automation engine

This project models, in Dafny, the parts of the engine whose correctness is hardest to see from
their code, and proves properties of them:

* **The graph scheduler** (`core/executor.py`). Node graphs run on a hand-built stack of frames;
  functions are pushed, popped and resumed; variables are copied in and out; node visits are
  counted; call depth and recursion are refused. `Scheduler` states one turn of the outer loop on
  values, `Executor` is the same scheduler as classes and loops that mutate frames, the stack and
  the counters in place, and is proved to do what `Scheduler` says. `Wiring` and `Names`
  tell what a turn does from the project's edges and the texts of names alone. `BigStep` is an independent,
  recursive meaning of graphs and calls; `Simulation` and `Refinement` prove that the stack machine
  stops and has computed it, when no two graphs share a node id and the graph the run was entered at
  is never called. A node executor, with everything it may observe, is an arbitrary function of a
  clock tick, the page map, the node and the variables that returns; it may also raise.
* **When runs end** (`core/executor.py`). Visits are counted, but starting a function forgets the
  counts of its nodes. `Reach` says which loops that opens, `Halting` that every run ends without
  them, `Looping` and `Endless` drive a run around each of them forever, and `Reentry` draws the case
  of graphs that share no node id. `Falling` is about calls that end past the last node.
* **Validation, loading and release trimming** (`core/project_schema.py`, `core/project_loader.py`,
  `core/builder/exporter.py`). The validators are loops proved to accept exactly the valid
  documents; `Defects` lists what makes one invalid, and what loading makes of the others. `Selecting`
  says, from the documents, what trimming keeps. Loaded projects are connected to the scheduler by theorems that say exactly which
  projects never get stuck (`Soundness`, `Stuck`), which validated documents load to such projects
  (`Validated`), and which release cuts no run can notice (`Lookalike`, `TrimExact`).
* **The expression language** (`core/expressions.py`). `Lexer` and `Parser` follow the tokenizer and
  the recursive-descent parser as loops over positions; `Syntax` is the grammar they are proved
  against. `Numbers` and `Spelling` say how tokens are written, and `Tokenizing` that the tokenizer reads
  exactly that; `Printer` and `Minimal` go from trees back to tokens, and `Expressions` puts both
  directions together.
* **Popups and page location** (`core/executor.py`). `Popups` is the timed clearing loop against a
  world that is free in everything but that time does not run backwards, and `PopupTraces` what every
  round of it may come to; `PageLocator` is the
  layered search for the current page against a full scan, and `Topology` the map it searches.
* **Two small algorithms**: the WebSocket client inside
  `scripts/manage_first_party_extension.py` (RFC 6455 sections 5.2 and 5.3), and the least-squares
  trend of `scripts/analyze_vnext_soak.py`.

`Common` and `Runtime` hold shared vocabulary: values, variables, Python's `strip`, nodes, edges,
tasks, and how a node's ports are looked up.

## What the proofs found

* Node ids are checked only within one graph, but edges and visit counters are kept by bare node id.
  Two graphs that share an id leak edges into each other and reset each other's counters; then a run
  of a validated project need not end (`SharedIdsLoopForever`), and another gets stuck
  (`SharedNodeIdGetsStuck`).
* A run may be entered at a function, by the command line (`main.py:44`) as by
  the HTTP service (`core/services/execution_service.py:320`). Its bottom frame does
  not count as a call of that function, so the function may be called again, and the call forgets the
  visits of the bottom frame. Then a run of a validated project goes on forever although no two graphs
  share an id (`FunctionEntryLoopsForever`).
* The two are one mechanism, and `RunsEndIff` says exactly when it does harm: runs entered at a graph all
  end unless one can get to a cycle of wired ports, closed by an outcome of a call, on which every node
  can be reset by calls, or to a node that calls which fall off their end can reset. With no shared ids
  only the entry graph can be such a place, and only if it can be called (`DisjointRunsEndIff`).
* The validator strips function ids and entry ids and the loader does not, so padded ids pass
  validation, and a run that reaches the call logs an unknown function or a missing start node
  (`PaddedFunctionIdGetsStuck`, `PaddedEntryGetsStuck`). `ValidatedNeverStuck` says exactly when that
  happens: a padded id of a function nobody calls does no harm, nor does a padded entry of one whose
  required parameters no call can supply. A function may be called `main` and then replaces the main graph
  (`FunctionNamedMainReplacesMain`).
* Call parameters are read-only for exactly those call nodes none of whose output bindings names a
  parameter's own key, as a target spelled with the scope prefix does
  (`RawTargetOverwritesParameter`), unless another binding of the same output makes the write-back
  fail (`ParametersAreReadOnlyIff`).
* A called function falls off its end, in some environment, exactly if wired ports lead from its entry
  past its last enabled node (`FallsOffIff`); that the last node is disabled is not enough. The frame
  is dropped without a result, and the caller starts over from its old start node. In a validated
  project main makes the same call again and again, until the visit limit ends the run
  (`FallenCallIsMadeAgain`).
* Dropping the page map drops popup handling (`DroppedPopupsChangeTheRun`), and dropping a function
  can drop edges that leaked into a kept graph (`DroppedEdgesChangeTheRun`). Which cuts can be
  noticed at all is `TrimmingPreservesRunsIff`.
* A page without a page id is never reported as the current page, even when it is the only match
  (`NamelessPageIsNotFound`). Validation refuses such pages, so they come only from a page map that
  was not validated; on a validated map the search agrees with a full scan (`ValidatedMapIsSearched`).
* Looking at near pages first can answer a page that a full scan would not choose, unless every near
  page has more features than every other page (`LayeredIsBestIff`).
* The setting `popup_max_consecutive` is stored but nothing reads it (`core/executor.py:126`).
* The first frame of a quiet stretch may be judged still against a frame older than the one just
  before it, because frames showing a cooling popup are not compared; `PopupTraces.Settled` says so.
* The WebSocket reader looks at neither the FIN bit nor the opcode: `DecodeInvertsFrame` holds for
  every first byte, so a ping or a fragment is taken for a whole message.

## Model

| member | source | states |
|---|---|---|
| Common.StripIsTrimmed | core/executor.py:972 | stripping a name twice is stripping it once, for Python's white space |
| Runtime.IndexOf | core/executor.py:644-647 | the id index: the last node with an id, and nothing exactly when no node has it |
| Runtime.OutEdges | core/graph/builder.py:63-92 | exactly the project edges whose source id is the node's, whatever graph they came from |
| Runtime.OutEdgesConcat | core/graph/builder.py:63-92 | out-edges of two edge lists put together are the two lists' out-edges put together |
| Runtime.FindEdgeJump | core/executor.py:616-624 | the answer is the target of a matching edge, and "" if none matches |
| Runtime.OutcomeJumps | core/executor.py:718-728 | each wired outcome of a call node goes where its port's edge goes |
| Names.StripTakesSpace | core/executor.py:972 | stripping takes the white space off both ends, all of it, and nothing else |
| Names.SpaceCharacters | core/executor.py:972 | which characters are white space to Python |
| Wiring.JumpIsWire | core/executor.py:616-624 | the jump looked up is the target of the first workflow edge in the project that leaves the node by that port, by its stable identity or its name, and goes anywhere; none exactly if there is no such edge |
| Wiring.VisitFollowsWire | core/executor.py:684-757 | a node that neither calls nor returns goes where the first edge of the branch it chose, else of its success or failure port, leads; its visit is counted |
| Wiring.OtherVisits | core/executor.py:668-690 | a disabled node is passed over, one visited as often as allowed raises the loop guard unexecuted, and a crash is raised |
| Wiring.ReturnVisit | core/executor.py:730-735 | a return node ends a function with its result, and is a failure elsewhere |
| Wiring.CallVisit | core/executor.py:716-728 | a node that asks for a call leaves for it exactly if the stripped name is a loaded function, not open, at most 32 deep, and its parameters bind; the call knows where each outcome is wired |
| Wiring.RefusedVisit | core/executor.py:855-874 | else the node fails and leaves by its failure port, and the log says why: no name, no such function, recursion, depth, or the binding error |
| Wiring.CallersAlways | core/executor.py:922-936 | in every run, every function on the stack was called by an enabled node of the graph below, for that function and with those bindings, and its frame holds that node's wires |
| Wiring.ReturnGoesOn | core/executor.py:938-963 | the turn on which a call returns: if its own outcome's port is wired at the calling node, the caller restarts at the target of that port's first edge; if not, it stays, and its next turn ends, well exactly if the outcome is not the exception |
| Scheduler.BudgetShrinks | core/executor.py:673-683 | counting a visit below the limit uses up some of the graph's visit budget |
| Scheduler.VisitShrinks | core/executor.py:659-757 | every turn at an enabled node trips the visit guard or uses up visit budget, so a walk ends |
| Scheduler.WalkCallsKnownFunction | core/executor.py:855-874 | a walk leaves for a call only towards a loaded function that is not open already, below the depth limit |
| StackShape.AfterWalkKeepsShape | core/executor.py:543-605 | whatever a walk ended in, the turn leaves a well-shaped stack |
| StackShape.StepKeepsShape | core/executor.py:518-605 | one turn of the outer loop keeps the stack shape |
| StackShape.StackShapeAlways | core/executor.py:504-605 | at every loop head of every run: main at the bottom, functions above it, call depth equal to height, open function ids distinct, at most 33 frames |
| StackShape.StaysHalted | core/executor.py:502-605 | a finished run stays finished with the same verdict, variables and log |
| Simulation.SimulateGraph | core/executor.py:626-757 | from the middle of any walk the machine reaches what the recursive meaning says of that graph |
| Simulation.SimulateCall | core/executor.py:855-963 | pushing a callee, running it and resuming the caller is the recursive call |
| Simulation.SimulateEnter | core/executor.py:535-541 | (re)starting a frame is entering its graph afresh |
| Refinement.RefinesRecursiveSemantics | core/executor.py:502-605 | for every project whose graphs share no node id, every environment in which the entry graph is never called, and every start, the run is finite and ends with the verdict, variables and log of the recursive meaning |
| Halting.EndsWithoutLoops | core/executor.py:502-605 | where no loop can be reached from the entry graph, the run ends, whatever ids graphs share: in every environment, for every visit limit, start, variables and counters |
| Endless.GoesOnForever | core/executor.py:502-605 | where one can be reached, some environment, visit limit and start give a run that is going on after any number of turns |
| Endless.RunsEndIff | core/executor.py:538-541 | so every run entered at a graph ends, in any environment and for any visit limit, exactly if no loop of wired ports whose nodes calls can reset can be reached, in the graph itself or in a function called from it |
| Reentry.DisjointRunsEndIff | core/executor.py:866-872 | if graphs share no node id, every run entered at a graph ends exactly if the graph cannot be called, or it has no cycle of wired ports closed by a call's outcome and nothing falls off around it |
| EndlessCases.SharedIdsLoopForever | core/executor.py:538-541 | a validated project with one node id in two graphs: a run from main, for any visit limit of at least two, is going on after any number of turns |
| EndlessCases.FunctionEntryLoopsForever | core/executor.py:866-872 | a validated project without shared ids: a run entered at a function, for any visit limit of at least one, is going on after any number of turns |
| Falling.FallsOffIff | core/executor.py:659-671 | whatever call of a function can start, it falls off the end in some environment exactly if wired ports of enabled nodes lead from the function's entry past its last enabled node |
| Falling.FallsOffIffOpenEnded | core/executor.py:659-671 | from some node -- not necessarily one that control can get to from the entry -- a graph is run off its end exactly if it is empty or its last node is disabled |
| EndlessCases.FallenCallIsMadeAgain | core/executor.py:570-605 | a validated project whose called function falls off every time: turn by turn main is back at its start and calls again, as often as the visit limit allows, and the run ends in the loop guard's error |
| Names.ScopedKeys | core/executor.py:944-948 | the keys that never leave a call are those with the parameter and local prefixes |
| Names.DottedKeys | core/executor.py:970-978 | a target written `$var.x`, `$ctx.x` or `$local.x` means the shared key x or the local x |
| Names.BracedKeys | core/executor.py:979-981 | and so do `$var{x}`, `$ctx{x}` and `$local{x}`, whose name is stripped |
| Names.PlainKey | core/executor.py:982 | any other text means the key it spells |
| Names.WritesItsKey | core/executor.py:987-993 | an output is written to that key and no other; it is refused exactly if the target is written as a parameter, or is empty |
| Names.WriteBackFailsIff | core/executor.py:949-956 | a write-back fails exactly if a binding that applies is refused, and for the first such |
| Names.ReferenceMeans | core/executor.py:880-900 | a call input means the parameter with its id, the last declared of several, else one with its name, else nothing |
| Names.NameMeansLast | core/executor.py:880-900 | with distinct ids, a name that is no id means the last parameter called so |
| Scopes.CalleeSeesOnlyItsOwnScope | core/executor.py:876-921 | a callee starts with the caller's shared variables unchanged, and no scoped name but its own parameters and locals |
| Parameters.CalleeStartsWith | core/executor.py:889-921 | key by key: a parameter holds the coerced last input that means it, else its coerced last default, else nothing; a local its last declared default |
| Parameters.MissingIffNotSupplied | core/executor.py:912-918 | unless some value is refused, a call's binding fails, and then for a missing parameter, exactly if a required one has neither an input that means it nor a default |
| Parameters.SuppliableIff | core/executor.py:880-918 | some call in some environment can enter a function exactly if each required parameter has a default or can be named |
| Scopes.RefusedCallIsPlainFailure | core/executor.py:728-757 | a visit whose call cannot start goes where it would have gone had the node failed, with the same counters and variables and no frame pushed, plus one log entry |
| Scopes.ApplyOutputsFrame | core/executor.py:949-956 | output bindings change no key that no applicable binding names |
| Scopes.ApplyOutputsWrites | core/executor.py:949-956 | a key holds the value of the last applicable binding that names it |
| Scopes.MergeBackFrame | core/executor.py:944-956 | key by key, what a return does to the caller: untargeted scoped keys keep their value, untargeted shared keys take the callee's |
| Scopes.ParametersAreReadOnlyIff | core/executor.py:938-992 | whatever a callee returns, a successful write-back changes no parameter of its caller, exactly if no filled-in binding names a parameter's key unless another binding of that output is refused |
| Scopes.RawTargetOverwritesParameter | core/executor.py:970-992 | the plainest case: a target spelled with the prefix overwrites a parameter |
| Scopes.RunDisturbsOnlyAbove | core/executor.py:518-605 | while a run stays above a stack height, no frame below it is touched |
| Scopes.ScopeIsolation | core/executor.py:938-963 | over nested calls of any length: on the turn a call returns, its caller is resumed once, with the result the callee itself ended in and its bindings, and everything below is as it was |
| Failures.FailureClimbs | core/executor.py:543-587 | an unhandled failure travels down the stack one caller per turn |
| Failures.UnhandledFailureFailsTheRun | core/executor.py:543-587 | a failing callee, with no exception edge wired anywhere on the stack, fails the whole run in as many turns as there are frames, and it never completes |
| Failures.HandledFailureResumes | core/executor.py:957-963 | the nearest frame whose call wires the exception resumes at that node |
| Executor.FindJump | core/executor.py:616-624 | the loop over edges finds what the specification does |
| Executor.CollectOutcomeJumps | core/executor.py:718-728 | the loop over edges collects one jump per outcome |
| Executor.BindInputsLoop | core/executor.py:895-911 | the loop binds inputs as specified, with the same refusals |
| Executor.PrepareChild | core/executor.py:876-921 | defaults, inputs, the required check and locals, in that order, give the callee's variables |
| Executor.ApplyOutputsLoop | core/executor.py:949-956 | the write-back loop is the specified write-back |
| Executor.ChooseRoute | core/executor.py:1037-1062 | port selection and the jump handler choose the specified move |
| Executor.GraphExecutor.RemoveFrame | core/executor.py:607-614 | the frame is gone and the others keep their order |
| Executor.GraphExecutor.ScheduleFunctionCall | core/executor.py:855-936 | refuses and leaves the stack alone, or pushes exactly the callee's frame |
| Executor.GraphExecutor.RunNode | core/executor.py:684-757 | executes one node on the top frame as specified; a refused call leaves the stack as it was and moves on as the failed node would, with the refusal logged |
| Executor.GraphExecutor.ExecuteSingleTask | core/executor.py:626-757 | the walk over the top frame ends as the value machine's walk, with the same counters, variables and log |
| Executor.GraphExecutor.ResumeFunctionCaller | core/executor.py:938-963 | merges into the frame object that made the call and sets where it goes on; a caller that is not on the stack is passed over, nothing changed |
| Executor.GraphExecutor.ReturnFromFunction | core/executor.py:570-603 | pops the function and resumes its caller as specified |
| Executor.GraphExecutor.FinishWalk | core/executor.py:543-605 | every ending of a walk leads to the specified configuration |
| Executor.GraphExecutor.Turn | core/executor.py:518-605 | one turn on frame objects is one turn of the value machine |
| Executor.GraphExecutor.ExecuteTaskIterative | core/executor.py:502-605 | the whole loop ends where the value machine halts |
| Executor.GraphExecutor.Start | core/executor.py:502-605 | the loop terminates where no loop can be reached from the entry graph, and where graphs share no node id and the entry graph is never called; in the latter case verdict, variables and log are those of the recursive meaning |
| Schema.ValidateGraph | core/project_schema.py:194-215 | no error exactly if ids are present and unique and every edge joins nodes of the graph |
| Schema.ValidateItems | core/project_schema.py:218-233 | no error exactly if stripped ids and names are present and unique and kinds are known |
| Schema.ValidateFunction | core/project_schema.py:236-284 | no error exactly for a valid function definition |
| Schema.ValidateCalls | core/project_schema.py:347-353 | no error exactly if every call names a known function other than its owner |
| Schema.ValidateWorkflow | core/project_schema.py:321-354 | accepts exactly the valid workflows |
| Defects.RefusedForADefect | core/project_schema.py:182-354 | a workflow is accepted exactly if it has none of the listed defects, from a blank id to a function that calls itself |
| Loader.ProjectFromDocuments | core/project_loader.py:59-98 | the loading loops build exactly the specified project |
| Loader.AddFunctionsLookup | core/project_loader.py:79-94 | each task id leads to the last function with that raw id |
| Defects.LoadsWhole | core/project_loader.py:39-56 | a function document becomes the task of its id with its nodes, entry, parameters and locals, unless a later one has that id |
| Defects.LoadsMain | core/project_loader.py:69-76 | main becomes the task main unless a function is called so |
| Defects.LoadsNothingElse | core/project_loader.py:69-94 | no other task is loaded |
| Defects.LoadsEdgesInOrder | core/project_loader.py:72-94 | the edge list is main's edges and then those of the functions, in the order of the documents |
| Soundness.StepExplained | core/executor.py:649-757 | in a well-routed project one turn raises no missing target and no unknown function |
| Soundness.WellRoutedRuns | core/executor.py:649-757 | if every enabled node routes inside its graph and every call names a loaded function, no run in any forwarding environment meets a missing target or an unknown function |
| Stuck.MisroutedProjectFails | core/executor.py:1043-1059 | the converse: otherwise some forwarding environment and start make a run fail that way |
| Stuck.MissingEntryFails | core/executor.py:649-654 | a called function whose entry is not in its graph: two turns from the call node, the run has logged a missing start node |
| Soundness.NeverStuck | core/executor.py:649-654 | if the functions that can be entered have their entry too, no run meets a missing task, start node, target or function |
| Stuck.NeverStuckIff | core/executor.py:502-605 | and only then: no run of any length from any node of any loaded graph finds something missing exactly if nodes route inside, calls are known and enterable functions have their entry |
| Validated.ValidatedRoutesInside | core/project_schema.py:182-215 | validated documents whose graphs share no node id load to projects that route inside their graphs |
| Validated.ValidatedCallsKnown | core/project_schema.py:287-299 | validated documents whose called functions are written as they are called load to projects whose calls are known |
| Validated.ValidatedEntriesKnown | core/project_schema.py:236-284 | and whose enterable functions have their entry in their graph |
| Validated.ValidatedNeverStuck | core/project_schema.py:321-354 | validated documents never get stuck exactly if nodes route inside their graphs, as they do when graphs share no node id, and called functions are written as they are called |
| Validated.ValidatedRunsAreFinite | core/executor.py:502-605 | with no shared node ids and no function called main, every run from main is finite, with the recursive meaning |
| Counterexamples.PaddedFunctionIdGetsStuck | core/project_loader.py:79-94 | a padded function id passes validation, and the run that calls it logs an unknown function |
| Counterexamples.PaddedEntryGetsStuck | core/project_loader.py:39-56 | a padded entry id passes validation, and the run that calls the function logs a missing start node |
| Counterexamples.SharedNodeIdGetsStuck | core/project_schema.py:203-208 | a node id shared by two graphs passes validation, and a run through it logs a missing target |
| Counterexamples.FunctionNamedMainReplacesMain | core/project_loader.py:69-94 | a function called main passes validation and replaces the main graph |
| Exporter.ClosureIsLeast | core/builder/exporter.py:58-92 | the set kept contains what is required, is closed under calls and lies inside every such set |
| Exporter.SelectFunctions | core/builder/exporter.py:73-92 | the worklist ends with that least set, or fails exactly if the set names an undefined function |
| Exporter.TrimBlueprint | core/builder/exporter.py:49-125 | the trimmed blueprint, of which `Selecting` says what is in it, or an error naming an undefined function that is needed |
| Selecting.SelectedIff | core/builder/exporter.py:58-92 | the selected functions are exactly those that calls reach from main, or from a function with a node that some form target `$node.<id>.<field>` shows |
| Selecting.TrimmedKeepsNeeded | core/builder/exporter.py:62-94 | trimming succeeds exactly if all those are defined, and keeps exactly them |
| Selecting.ShownFunctionIsKept | core/builder/exporter.py:62-80 | a function with a node the form shows is kept, called or not |
| Selecting.TrimmedKeepsTheRest | core/builder/exporter.py:94-125 | the page map stays exactly if the form shows one of its nodes or something kept has a smart jump; of the folders those of kept functions stay; main stays |
| Exporter.TrimmedHasNoDanglingCall | core/builder/exporter.py:94-125 | every call left names a function left |
| Exporter.TrimmedKeepsOrder | core/builder/exporter.py:94-110 | the kept functions are the selected ones, all of them, in their original order |
| Exporter.TrimTwice | core/builder/exporter.py:49-125 | trimming is idempotent |
| TrimMeaning.SameRun | core/executor.py:502-605 | a project and a sealed part of it run in lock-step |
| TrimMeaning.TrimmingSeals | core/builder/exporter.py:49-125 | a clean cut is such a part |
| TrimMeaning.TrimmingPreservesRuns | core/builder/exporter.py:49-125 | after a clean cut every run from main goes through the very same states, turn by turn, in every forwarding environment |
| Lookalike.RunAlike | core/executor.py:502-605 | a project and a part whose enabled nodes' ports lead to the same places go on looking alike at every turn, up to the spelling of jump targets |
| TrimExact.TrimmingPreservesRunsIff | core/builder/exporter.py:49-125 | no run from a kept graph shows a difference exactly if every port of every kept, enabled node leads to the same place, and the map is kept, has no popup page, or nothing kept can run |
| TrimExact.CleanIsUnnoticed | core/builder/exporter.py:49-125 | clean cuts meet that condition |
| TrimExact.DroppedStandInChangesTheRun | core/project_loader.py:79-94 | the premise on main is needed: dropping an uncalled function called main changes a run |
| TrimMeaning.DroppedPopupsChangeTheRun | core/executor.py:155-158 | a dropped map with a popup page changes a run |
| TrimMeaning.DroppedEdgesChangeTheRun | core/graph/builder.py:63-92 | dropping a function whose edges leaked into main changes a run |
| Syntax.ParseAt | core/expressions.py:204-354 | total at every grammar level, and each success consumes a non-empty front of the tokens |
| Printer.Descend | core/expressions.py:213-305 | a tree read at a tight level is read at any looser level that nothing continues |
| Printer.RoundTrip | core/expressions.py:204-354 | what is printed at a level parses at it to the same tree, whatever follows that does not continue it |
| Printer.ParseInvertsPrint | core/expressions.py:204-354 | every well-formed tree, printed with as few parentheses as the grammar allows, parses back |
| Printer.ParenthesesGroup | core/expressions.py:338-342 | parentheses may stand around any expression, needed or not |
| Minimal.FitsAt | core/expressions.py:204-354 | at every level a success is a well-formed tree whose print is the consumed tokens without their spare parentheses |
| Minimal.PrintIsShortest | core/expressions.py:204-354 | the print of a parsed tree parses to it, equals the input apart from parentheses, and is no longer: a shortest token list for that tree |
| Minimal.ParsedIffWellFormed | core/expressions.py:204-354 | the parser produces exactly the well-formed trees, over the operators listed there |
| Parser.TokenParser.Match | core/expressions.py:193-197 | advances by one exactly if the next token has the kind, and never past EOF |
| Parser.TokenParser.ParseTernary | core/expressions.py:213-225 | does what the grammar says on the tokens left, for both conditional forms |
| Parser.TokenParser.ParseOr | core/expressions.py:228-233 | the loop builds the left-associative chain |
| Parser.TokenParser.ParseAnd | core/expressions.py:236-241 | the loop builds the left-associative chain |
| Parser.TokenParser.ParseNot | core/expressions.py:244-247 | as the grammar |
| Parser.TokenParser.ParseComparison | core/expressions.py:250-259 | the loop collects the chained comparison |
| Parser.TokenParser.ParseAdditive | core/expressions.py:262-268 | the loop builds the left-associative chain |
| Parser.TokenParser.ParseMult | core/expressions.py:271-277 | the loop builds the left-associative chain |
| Parser.TokenParser.ParseUnary | core/expressions.py:280-287 | as the grammar |
| Parser.TokenParser.ParsePower | core/expressions.py:290-295 | as the grammar: right-associative, binding its right side at the sign level |
| Parser.TokenParser.ParsePostfix | core/expressions.py:298-305 | the loop builds nested subscripts |
| Parser.TokenParser.ParseAtom | core/expressions.py:308-354 | literals, variables, calls, parentheses and lists as the grammar, with the same errors |
| Parser.TokenParser.Parse | core/expressions.py:204-210 | the whole input or an error; on success the position is on EOF |
| Lexer.MatchAt | core/expressions.py:95-104 | some alternative matches at every position and takes at least one character |
| Lexer.MatchedText | core/expressions.py:95-104 | the text an alternative took, alone, is taken whole by it again, and is what its conversion needs |
| Lexer.UnescapeString | core/expressions.py:112-127 | the loop over escapes is the specified unescaping |
| Lexer.Tokenize | core/expressions.py:130-172 | the scanning loop ends with the specified tokens and EOF, or with the place of the first bad character |
| Numbers.LongestNumber | core/expressions.py:97 | the number alternative takes the longest front of the text that the number grammar allows, and nothing exactly if there is none |
| Spelling.UnitsMean | core/expressions.py:112-127 | text made of plain characters and escapes unescapes to what its pieces mean |
| Spelling.StringReads | core/expressions.py:98 | every string literal, in either quotes and with any escapes, is taken whole and reads as its meaning |
| Spelling.DottedReads | core/expressions.py:99 | the dotted form of a parameter or local reads as that variable, before anything that does not continue its name |
| Spelling.IdentifierReads | core/expressions.py:106-109 | which token each identifier reads as: true, false and none in their three spellings each, the five keywords, and names otherwise |
| Spelling.SpellingReads | core/expressions.py:130-172 | every spelling of a token that ends where the text lets it end is taken whole and read as that token |
| Tokenizing.MatchIsSpelled | core/expressions.py:95-104 | whatever an alternative takes, white space apart, is such a spelling of the token made of it |
| Tokenizing.TokenizesIff | core/expressions.py:130-172 | a text tokenizes to a list of tokens exactly if it is made of spellings of them, each as long as the text allows, with any white space or none around and between |
| Tokenizing.SpellableIff | core/expressions.py:130-172 | which tokens have a spelling |
| Tokenizing.DecimalDigits | core/expressions.py:144-146 | every natural number has a decimal spelling, whose digits count by their place |
| Tokenizing.LexableIffSpellable | core/expressions.py:130-172 | the token lists some text tokenizes to are exactly those of such tokens |
| Tokenizing.BadIff | core/expressions.py:95-104 | only the last alternative matches exactly where neither white space nor a spelling starts |
| Tokenizing.ErrorsIff | core/expressions.py:133-136 | the tokenizer fails at a place exactly if the text can be read up to it and nothing starts there |
| Expressions.LexedEnds | core/expressions.py:171-172 | the tokenizer's list ends in its only EOF, as the parser needs |
| Expressions.CompileText | core/expressions.py:640-642 | tokenizing and parsing give the specified tree or error |
| Expressions.CompileInvertsWriting | core/expressions.py:640-642 | every well-formed tree compiles back from any text that spells its tokens |
| Expressions.CompiledIsWritable | core/expressions.py:640-642 | whatever compiles can be written and compiled again without change |
| Expressions.CompiledIffWritable | core/expressions.py:640-642 | the trees texts compile to are exactly the writable ones |
| PopupTraces.AddClose | core/executor.py:251-296 | a close decided after the cooldown keeps all closes of a page a cooldown apart |
| PopupTraces.ClosesAreRationed | core/executor.py:115-126 | over all drains, n + 1 closes of one page span at least n cooldowns |
| PopupTraces.OneMoreQuietFrame | core/executor.py:313-318 | a popup-free frame, judged still or not, continues the quiet stretch |
| PopupTraces.SettledAtLast | core/executor.py:319-327 | enough still frames over a long enough stretch are a settled screen |
| PopupTraces.NotYetComplete | core/executor.py:313-325 | too few still frames at the end, or too short a stretch: then no stretch of popup-free frames up to the newest is complete |
| PopupTraces.RecentIff | core/executor.py:262-268 | by the remembered times a page is cooling exactly if one of its closes ended less than the cooldown ago, or it was never closed and the clock is below the cooldown |
| Popups.PopupGuard.ScanPages | core/executor.py:251-271 | the first popup to close, or only cooling ones, or none, or a crash; other variables untouched |
| Popups.PopupGuard.FrameIsStable | core/executor.py:1295-1319 | judged only against a frame kept since the last reset, and keeps the newest one |
| Popups.PopupGuard.ClosePage | core/executor.py:283-291 | only a page out of its cooldown is closed, and the close is remembered |
| Popups.PopupGuard.DrainRound | core/executor.py:243-325 | one frame's worth of the loop keeps the book of quiet frames and closes, and of why each round went on or ended the drain |
| Popups.PopupGuard.DrainPopups | core/executor.py:220-335 | every round that went on saw only cooling popups, or closed the first that might be closed, or saw none but completed no quiet stretch; the round that ends the drain is clear at once if nothing was closed, else a settled screen, or one of the errors for its own reason; time runs out only at the deadline; rounds keep the poll interval and start before the deadline; the current page is put back on every exit |
| PageLocator.BetterTransitive | core/executor.py:1210 | the order of candidates is transitive |
| PageLocator.NamesAreSorted | core/executor.py:1210 | names are compared as words in a dictionary |
| PageLocator.ChosenPage | core/executor.py:1207-1223 | no other match has more features, nor as many and a higher score, nor both the same and an earlier name |
| PageLocator.IndexedPagesIff | core/executor.py:1140-1172 | the index lists exactly the pages that are no popups |
| PageLocator.IndexedKeyIff | core/executor.py:1140-1172 | a key means the last node with it as its page id, or as its node id if it has none, popup pages left out |
| PageLocator.NearIff | core/executor.py:1229-1245 | the near tier is the pages linked from the current one and those linked from what it links to |
| PageLocator.Locator.BuildTopologyIndex | core/executor.py:1140-1172 | the pages in order without popups, and the last node for every key |
| PageLocator.Locator.NearPages | core/executor.py:1229-1245 | exactly the pages one or two links away, each once, in whatever order sets are visited |
| PageLocator.Locator.Choose | core/executor.py:1207-1223 | the answer is the first match that no other beats, and becomes the current page |
| PageLocator.Locator.EvaluateCurrentPage | core/executor.py:1174-1257 | the best page of the near tier, else of the whole map; tests just those pages, and none twice if the index lists none twice; sets the current page exactly if something matched |
| PageLocator.AgreesIffNamed | core/executor.py:1174-1257 | the layered search finds nothing exactly when a full scan would, on every frame, if and only if every page has an id |
| PageLocator.NamelessPageIsNotFound | core/executor.py:1197-1203 | a page without an id, the only match, is answered as no match |
| PageLocator.LayeredIsBestIff | core/executor.py:1246-1257 | the best near match is a best match of the whole map on every frame exactly if every page outside the near tier has strictly fewer features than every page in it |
| Topology.ValidateTopology | core/project_schema.py:357-371 | no error exactly if the map is a valid canvas graph whose pages have distinct page ids |
| Topology.MapRefusedIff | core/project_schema.py:357-371 | a map is accepted exactly if its version is known, nothing obsolete is in it, its graph has no defect and its pages have distinct page ids |
| Topology.MapLoads | core/models.py:151-158 | the loaded map holds every node that has an id, with its fields |
| Topology.ValidatedMapIsSearched | core/project_schema.py:357-371 | on a validated map the index lists no page twice, and from anywhere the layered search finds nothing exactly when a full scan would |
| WebSocket.UnsignedInvertsBigEndian | scripts/manage_first_party_extension.py:130-131 | lengths in network order read back |
| WebSocket.MaskTwice | scripts/manage_first_party_extension.py:135 | masking twice with one key is the identity |
| WebSocket.FrameLayout | scripts/manage_first_party_extension.py:128-142 | a frame byte by byte: where the length is, most significant byte first, then the mask, then the payload combined with mask octet i modulo 4 |
| WebSocket.DecodeInvertsFrame | scripts/manage_first_party_extension.py:128-142 | every frame, masked or not, in any length form that holds its size, gives its payload and leaves the stream behind it |
| WebSocket.DecodesOnlyFrames | scripts/manage_first_party_extension.py:128-136 | whatever decodes is such a frame followed by the rest |
| WebSocket.TruncatedFrameIsIncomplete | scripts/manage_first_party_extension.py:121-127 | no proper front of a frame decodes |
| WebSocket.ClientFrameIsMinimal | scripts/manage_first_party_extension.py:140 | sent frames are final, textual, masked and in the shortest length form |
| WebSocket.StreamDecodes | scripts/manage_first_party_extension.py:128-136 | a stream of frames decodes to their payloads, one for one |
| WebSocket.OwnReplyIsFound | scripts/manage_first_party_extension.py:143-147 | a call passes over messages with other ids and gets the first reply with its own: the remote error with its text if it holds one, else its result; the rest stays unread |
| WebSocket.NoReplyIsAnError | scripts/manage_first_party_extension.py:121-147 | without an own reply it fails, at the first message that cannot be parsed or at the end of the stream |
| WebSocket.Client.Read | scripts/manage_first_party_extension.py:121-127 | exactly the bytes asked for, however the socket splits them, or an error if the stream ends first |
| WebSocket.Client.ReceivePayload | scripts/manage_first_party_extension.py:128-135 | reads one frame off the stream |
| WebSocket.Client.Call | scripts/manage_first_party_extension.py:137-147 | a fresh id, one frame sent, and the outcome and the unread stream of waiting for that id, as `OwnReplyIsFound` and `NoReplyIsAnError` tell them |
| Trend.ResidualsExceed | scripts/analyze_vnext_soak.py:25-39 | how much worse than the trend line any other line is, exactly |
| Trend.TrendIsLeastSquares | scripts/analyze_vnext_soak.py:25-39 | the computed slope with its intercept is the unique line with the least sum of squared residuals |
| Trend.SlopeOfALine | scripts/analyze_vnext_soak.py:25-39 | points on a line have that line's slope |
| Trend.FlatWithoutSpan | scripts/analyze_vnext_soak.py:30-36 | the slope is computed exactly if two samples differ in time, and is 0 otherwise |
| Trend.SlopeMoves | scripts/analyze_vnext_soak.py:25-39 | another origin leaves the slope alone, other units scale it |
| Trend.TrendOfRescaled | scripts/analyze_vnext_soak.py:25-39 | starting the clock elsewhere and adding to every value change nothing; scaling the values scales the trend |
| Trend.TrendIsPerHour | scripts/analyze_vnext_soak.py:25-39 | values that grow by k every 3600 seconds have the trend k, and 0 without two different times |

## Left out

- Refinement.RefinesRecursiveSemantics: needs graphs that share no node id, and an entry graph that is never called: one that no call can start, or, if the environment makes only the calls the project asks for, one that no node calls. Then each frame's counters are its own, as the recursive meaning has them. `RunsEndIff` has the exact condition for the runs to end, without either premise; where it holds without them, no recursive meaning is given.
- Simulation.SimulateGraph: needs the same of the graph at the bottom of the stack.
- Simulation.SimulateCall: needs the same of the graph at the bottom of the stack.
- Simulation.SimulateEnter: needs the same of the graph at the bottom of the stack.
- Endless.RunsEndIff: assumes that every function a call can start has an entry that lands on an enabled node (`EntriesRun`), and quantifies over every environment, also those that make calls the project does not ask for; `EndsWithoutLoops`, that runs end, does not need the assumption.
- Endless.GoesOnForever: assumes the same.
- Reentry.DisjointRunsEndIff: assumes the same.
- Stuck.MisroutedProjectFails: assumes that node ids are non-empty and unique within a graph, as validation ensures.
- Stuck.NeverStuckIff: assumes the same, and is about runs from any loaded graph.
- TrimMeaning.TrimmingPreservesRuns: needs a clean cut, which is more than is necessary; `TrimExact.TrimmingPreservesRunsIff` has the exact condition, for runs compared up to the spelling of jump targets held on the stack.
- TrimExact.TrimmingPreservesRunsIff: assumes that no dropped function is called main (`DroppedStandInChangesTheRun`), that node ids are non-empty and unique within a graph, as validation ensures, and that only smart jumps read more of the page map than its popup pages; like `ValidatedNeverStuck` it counts runs from every kept graph.
- Validated.ValidatedNeverStuck: is about runs from any loaded graph, which the command line and the HTTP service can enter; a released player enters main only, for which the condition asks too much of functions that no run from main reaches.
- Executor.GraphExecutor.ExecuteTaskIterative: the ghost bound stands for the finiteness of the run; `Start` supplies it under the conditions of `EndsWithoutLoops` and of `RefinesRecursiveSemantics`.
- Executor.GraphExecutor.Start: leaves out the runs that need not end, and those that end only because of what their environment does.
- Popups.PopupGuard.DrainPopups: closing actions are assumed not to start a drain of their own, and the clock not to run backwards.
- PageLocator.Locator.EvaluateCurrentPage: a page's test and its score are a fixed function of the page on one frame; in the code a test that measures no score leaves the previous one standing.
- Schema.ValidateFunction: the checks on a function's test cases are not modelled.
- Schema.ValidateWorkflow: nor are they here, and purely structural checks are one flag per document.
- Numbers.LongestNumber: digits are the ASCII ones.
- Parser.TokenParser.Parse: which of several syntax errors is reported follows the code, but nothing more is proved about it.
- Lexer.Tokenize: digits are the ASCII ones, where Python also takes other decimal digits; numbers with a point or an exponent keep their spelling and their float value is not modelled; integers have no digit limit.
- The branches for repeated calls (`core/executor.py:530-536`, `589-601`): both places that create frames set a repeat count of one, so they cannot be reached.
- The error for an edge that crosses into another graph: the builder stamps every edge with the task's own id, so it cannot be reached.
- The executor of single nodes, with its loop counts, delays, the stop flag, debugging, checkpoints, and log texts: part of the arbitrary node executor. Values passed to calls are resolved and coerced by arbitrary functions.
- A failed write-back leaves the caller's dictionary partly updated in the code; the run has ended by then, so this is not modelled.
- The expression evaluator and its function table, `$env` and `$sys` values.
- Structural checks of JSON documents (types, versions, assets, obsolete fields) are one flag per document; function test cases are not modelled.
- Steps of one popup's closing flow, page labels, smart-jump navigation and the wait for a loading page.
- Pixel comparison of frames, capture, OCR and input: answers of the outside world.
- The socket's time-out, the WebSocket handshake, and JSON encoding and parsing, which are arbitrary functions.
- Rounding: the trend is over exact numbers, the clock over real milliseconds.
- Floating-point settings conversions, key packing, zip writing, installers, HTTP services.
