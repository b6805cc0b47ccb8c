# Carbon Paper, modelled and proved

Carbon Paper runs a workflow: a graph of stages over row tables. It records for each output row where
the row came from and which branches of a stage's code it took, so that any figure can be walked back to
the source rows behind it. This project models the logic that promise rests on and proves properties of
the model with Dafny. `dafny verify dfyconfig.toml` checks all of it.

One module for each part of the system:

- `Graph`: the three searches of a stage list (cycle detection, the dependency sort, the run order).
- `Engine`, `Runner`: a run as a step machine over stage records, with cancels, halts, crashes, lost
  outputs and resumes; and the loop that takes the steps.
- `Lineage`, `Sidecar`, `Trace`, `Scope`: what each kind of stage records about its rows under any row
  window, how that is stored and read back, the walk from a row to its source, and the closure of all a
  row came from. Every row carries the set of source rows it stands for; no stage looks at it, and the
  recorded provenance is measured against it.
- `Predicate`, `FilterRun`: the AND/OR/NOT filter dialect, its rewriting into Python by parentheses, and what
  runs of it.
- `BranchIds`, `RowCode`, `RowReader`, `SuiteLayout`, `BranchWalk`, `BranchCounts`, `BranchNames`, `Splice`,
  `Instrument`, `Lines`, `Meaning`, `Capture`, `Loading`, `BranchReports`, `Recorder`: the rewriting of a stage's own code so that each branch
  reports itself, from the syntax tree with its exact text, through the table of edits and the lines they
  are spliced into, to what the rewritten code does when it is loaded and when it runs, and what the
  recorder then holds for each row.
- `Frontier`: whether an eval may be scored by row position.
- `RunLog`: the chunked event log, its writer, which may be killed at any save, and its readers.
- `TextOrder`, `Store`, `StageCache`: the id order of the document store, its prefix scan, the row cache.
- `Schema`, `Signature`: column and table schemas, and the migration that gave stored stages a signature.
- `Disagreement`: how differently files fill the same column.
- `Decimals`, `Seqs`, `Wrappers`: numerals, facts about joining sequences, and the option type.

Code that changes state is modelled as classes and methods with loops, each proved against a function of
its inputs or of the state before; what the code is for is proved about those functions. The source is
followed branch by branch; ids of stages are numbers, and a run's stages are numbered in run order where
only the order matters.

## Where the code and its promises part

These are theorems of the model, each with the exact condition under which the promise holds.

- The filter dialect says anything else is refused. A filter that closes a group before it opens one,
  such as `a ) AND ( b OR c`, is accepted. An accepted filter is in the dialect exactly when its
  parentheses balance (`Predicate.AcceptedFiltersAreWellFormedWhenBalanced`).
- A filter is checked by one reading of its rewriting and run by another: the parser that runs it takes `&`
  and `|` for `and` and `or`, which bind less tightly than `not`. `NOT ( a OR b )` is run as
  `(NOT a) OR b` (`FilterRun.ANegatedGroupRunsOtherwise`). A filter is run as it was meant exactly where no
  NOT stands directly before a group that holds an operator at its own level
  (`FilterRun.AFilterRunsAsMeantExactly`), and of all that is accepted exactly the balanced ones of those
  (`FilterRun.AcceptedFiltersRunAsMeantExactly`).
- Of what is modelled here, a resumed run is the run that was never stopped in every respect but one:
  `cancelled_at` is never cleared again (`Engine.CancelledAtIsTheLast`, `Engine.ResumeRefinesOneRun`).
- docs/branch-analysis.md names two places whose conditional expressions go unrecorded. There are more: an
  `elif`'s own test, and everything inside the body of a loop or of a `with`. Every suite and every arm of
  a body is found exactly where no `elif` test makes a choice and no such body holds a branch
  (`BranchCounts.EveryBranchIsFoundExactlyWhenWalked`; `TheIfIsNotFound` and `TheChoiceIsNotFound` are
  inputs). The code passes over `finally` suites and the cases of a `match` too, which are not modelled. An
  `else` that holds a single `if` is counted as an `elif`.
- The rewritten source is to be valid code. What is put in above a suite is indented by what stands before
  the suite on its line. The suite is still one exactly where either it began a logical line of its own,
  and that text is as long and as wide as its indentation; or it began on its header's logical line, that
  text is not blank, and the blanks it begins with, and four more, reach further than the statement's
  indentation does (`SuiteLayout.RewrittenSuitesStandExactly`). So a suite is lost to a backslash at the end
  of its header, to a header on two lines, and to a tab (`SuiteLayout.ABackslashLosesTheSuite`,
  `SuiteLayout.AHeaderOnTwoLinesLosesItsSuite`, `SuiteLayout.ATabbedHeaderLosesItsSuite`), and to nothing
  else (`SuiteLayout.PlainSuitesAreKept`).
- The recorder is put under a name the code may bind. Where the module binds it, by a function or a
  statement of its own, no row of it is heard, and what is bound answers in the rewritten code: a row that
  gives 1 as authored can give the text of an id (`Capture.ATakenNameHearsNothing`,
  `Capture.ATakenNameAnswersForTheRow`). What is proved of rewritten code is proved of modules in which no
  function, parameter or statement binds that name and nothing calls it.
- Rewritten code is to do what the authored code does. A module is loaded before any row is open, and a
  report is then refused. So a module whose own statements enter a branch, by calling a function above
  them, loads as authored and does not load rewritten (`Loading.ACallAtTheTopDoesNotLoad`). Where nothing
  catches the refusal, the two loads are the same exactly when no branch is entered
  (`Loading.AModuleLoadsExactlyWhenItEntersNoBranch`).
- The id of a cached row is no other key's exactly when none of the key's four parts holds a slash
  (`StageCache.AnIdIsItsOwnExactlyWithoutSlashes`).
- Reading a run log newest chunk first relies on id order being chunk order. That holds for exactly
  1,000,000 chunks and no more (`RunLog.IdOrderIsChunkOrder`).
- An eval is refused where its target does not come after the overridden stage. It is still offered for
  scoring by position where reference overrides cut every path between the two, so that the target does
  not read the dataset at all (`Frontier.ACutOffTargetIsOffered`). What is offered lines up with the dataset
  row for row, whatever it holds, exactly when some path meets no reference override
  (`Frontier.OfferedLinesUpExactlyWhenNotCutOff`).
- The prefix scan has no upper bound to compare with exactly when the prefix ends in U+10FFFF or U+D7FF
  (`TextOrder.NoRangeFor`).
- The signature migration keeps the stored schema of stages of opaque code. For an llm stage it drops the
  rewrites and for a filter everything, so there the schema survives exactly when there was nothing to
  drop (`Signature.WhatTheOtherTypesKeep`).
- A file's distribution adds up to one exactly when none of its kept values is spelled like the bucket
  for the rest (`Disagreement.DistributionsAddUp`).

## Model

| member | source | states |
|---|---|---|
| Graph.DetectCycle | app/models/workflow.py:62-85 | a walk is found exactly when the stages form a cycle, and from some stage on the one returned is a cycle |
| Graph.CycleDetector.Visit | app/models/workflow.py:68-80 | one search from a stage: colours stay consistent, and a walk is reported only if it ends in a cycle |
| Graph.SortStagesByDependency | app/models/workflow.py:88-100 | refused exactly on a cycle; otherwise every stage once, each after all it reads |
| Graph.SortTopologically | app/runtime/executor.py:50-68 | refused exactly on a cycle; otherwise every stage once, each after all it reads |
| Graph.TopologicalSort.Visit | app/runtime/executor.py:55-64 | one depth-first visit: appends in order, or returns a walk that ends in a cycle |
| Graph.AnOrderMeansNoCycle | app/runtime/executor.py:50-68 | where a dependency order exists no walk closes, so the three searches cannot disagree |
| Graph.StuckMeansACycle | app/models/workflow.py:88-100 | stages of which none is ready hold a cycle: refusing is never wrong |
| Engine.ExpectedIsCoherent | app/runtime/executor.py:148-211 | the verdicts defined stage by stage from inputs' verdicts satisfy the rule every stage is judged by |
| Engine.ExpectationsAreUnique | app/runtime/executor.py:148-211 | with deterministic handlers only one assignment of verdicts satisfies that rule |
| Engine.PassesAreAsExpected | app/runtime/executor.py:148-211 | from any stored start, a pass that runs to its end leaves the expected verdicts; one that is stopped leaves only records still true of it |
| Engine.HandlersAreHandedWhatIsDue | app/runtime/executor.py:155-204 | at every point of every pass a handler is called only with the expected ok or warning output of each input |
| Engine.NonPendingIsJudged | app/runtime/executor.py:214-220 | no stage is left running or cancelled by an uncancelled run, and a pending one waits on an input |
| Engine.BlockingIsExact | app/runtime/executor.py:593-599 | a stage ends pending exactly when an ancestor ended in error or awaiting review |
| Engine.NoFailureHides | app/runtime/executor.py:611-620 | the folded run status is OK exactly when every stage is OK, errors exactly when one erred, awaiting review exactly when one halts and none erred |
| Engine.AwaitingHolds | app/runtime/executor.py:535-562 | `halted_at` holds exactly the stages awaiting review |
| Engine.SuccessesLast | app/runtime/executor.py:602-608 | an output that was good stays good in every later state of the world, so skipping the stage on resume is sound |
| Engine.EveryHistoryCanResume | app/runtime/runner.py:163-224 | whatever sessions, cancels, crashes and lost outputs came before, what is stored can be resumed from |
| Engine.CancelledAtIsTheLast | app/runtime/runner.py:186-222 | `cancelled_at` is the last cancelled session's, however many sessions followed it |
| Engine.ResumeRefinesOneRun | app/runtime/runner.py:163-224 | after any history the stage statuses, run status, halts and usable outputs are those of one run never stopped; only `cancelled_at` differs |
| Runner.Mailboxes.RequestCancel | app/runtime/cancellation.py:14-16 | adds the run's message and changes no other run's |
| Runner.Mailboxes.ConsumeCancel | app/runtime/cancellation.py:19-25 | tells whether a message was there, and takes it |
| Runner.Mailboxes.DiscardCancel | app/runtime/cancellation.py:28-31 | a stale message does not outlive the session it was sent to |
| Runner.Run.constructor | app/runtime/runner.py:186-222 | a starting session holds the reloaded outputs, the stored records and an empty mailbox |
| Runner.Run.GatherInputs | app/runtime/executor.py:240-257 | hands the outputs of all inputs in order, or fails where one is absent |
| Runner.Run.RecordAnswer | app/runtime/executor.py:367-433 | the state after a handler's answer is the step machine's: only a table that was produced is stored |
| Runner.Run.RunStage | app/runtime/executor.py:456-515 | running one stage, with a cancel before, during or not at all, is one execution of the step machine |
| Runner.Run.TakeStage | app/runtime/executor.py:155-204 | one turn of the loop (checkpoint, block, skip or run) is one step |
| Runner.Run.RunOrderedStages | app/runtime/executor.py:148-211 | the loop is the whole pass of the step machine |
| Runner.Run.Session | app/runtime/executor.py:535-562 | a session leaves the finalized record of its pass |
| Runner.ReloadOutputs | app/runtime/runner.py:186-199 | reloads exactly the stored outputs of stages recorded as done; a lost file is not reloaded |
| Runner.StoppedStays | app/runtime/executor.py:155-170 | once stopped, a pass changes nothing more |
| Runner.ResumeToTheEnd | app/runtime/runner.py:163-224 | running the last session of any history leaves that history's record, and if not cancelled the expected verdicts and halts |
| Lineage.WindowedRow | app/runtime/executor.py:313-326 | row k of a windowed table is row start + k of the table, and exists |
| Lineage.WindowedParent | app/runtime/executor.py:329-341 | a parent named from outside a window exists upstream and stands for what the windowed row stands for |
| Lineage.SlicedKeepsStep | app/runtime/lineage.py:95-98 | for a stage without inputs the windowed table and the sliced lineage keep the same rows |
| Lineage.UnionRow | app/runtime/lineage.py:235-246 | each row of a union is named as the row of the input it came from, input by input |
| Lineage.MergedHops | app/runtime/lineage.py:249-260 | a join row's shifted edges exist, start with its subject row, and say what the row stands for |
| Lineage.GroupedHops | app/runtime/lineage.py:267-278 | an aggregate row's shifted contributions exist and together stand for what the row stands for |
| Lineage.RunsAreFaithful | app/runtime/executor.py:329-354 | every run of every pipeline, with any windows, records for each output row only existing rows of earlier stages, which stand for exactly the source rows the output row stands for |
| Sidecar.OneRowAgrees | app/runtime/lineage.py:167-198 | decoding one row is that row of the decoded whole, also with columns absent |
| Sidecar.SidecarParents.GetItem | app/runtime/lineage.py:142-153 | indexing, negative too, gives what the whole decoded table gives, whatever was read before |
| Sidecar.SidecarParents.GetSlice | app/runtime/lineage.py:142-153 | slicing gives the slice of the whole decoded table |
| Sidecar.SidecarParents.ReadEveryRow | app/runtime/lineage.py:172-180 | reading on gives the whole decoded table |
| Sidecar.DecodingUndoesEncoding | app/runtime/lineage.py:100-121 | decoding an encoded lineage gives it back, empty column lists and file names read as absent |
| Sidecar.ReadingUndoesWriting | app/runtime/lineage_sidecar.py:28-79 | a write is refused exactly on a length mismatch; otherwise lineage and branches come back, alone or beside each other, with no branch taken kept apart from not run |
| Sidecar.ReadBackIsSettled | app/runtime/lineage_sidecar.py:69-79 | what was read back once reads back the same ever after |
| Trace.TurnAt | app/runtime/trace.py:162-261 | one turn with cached reads is the turn over the stored run |
| Trace.TraceRowFrom | app/runtime/trace.py:299-366 | the loop gives the recursive walk from the row, with its steps, its end and the unused choices refused |
| Trace.ReadBackIsFaithful | app/runtime/trace.py:278-291 | a record stays faithful when it is stored and read back |
| Trace.PlainTurnsAreExact | app/runtime/trace.py:243-261 | where a row has one parent, the next row stands for exactly what this one stands for, unless its stage's output is missing |
| Trace.WalksAreSound | app/runtime/trace.py:299-366 | over any faithful record, with any outputs missing, a walk ends within one step per stage and never at an out-of-range parent; it stops at no stage whose output is missing, and says so where it comes to one |
| Trace.TracesAreSound | app/runtime/trace.py:299-366 | tracing any row of any run, with any outputs missing, terminates, never reports an out-of-range parent, and a source it reaches is one the row stands for |
| Trace.MissingOutputsOnlyCutTraces | app/runtime/trace.py:198-223 | with outputs missing a trace is the trace with none missing, cut before the first stage that lost its own |
| Trace.TracesOfCarriedRowsAreExact | app/runtime/trace.py:299-366 | where each stage a trace stops at is a load, a row-by-row stage, a filter, a union or a join, under any windows, the row stands for one source row and the trace ends exactly there |
| Trace.EveryTaggedSourceIsReached | app/runtime/trace.py:205-223 | each source row a row stands for is reached by some choice of rows to sample |
| Scope.AboveIsTheClosure | app/services/scope.py:226-239 | the rows gathered above a row are exactly those a chain of hops leads to |
| Scope.ReachUpstream | app/services/scope.py:226-239 | the worklist finds exactly the closure of the rows it is given, repeats among them or not |
| Scope.CameThrough | app/services/scope.py:268-277 | from any memo already filled, the stages of exactly that closure, and the memo stays right |
| Scope.TurnsAreHops | app/services/scope.py:280-290 | wherever a turn of a trace goes, by recorded parent or by position, is one hop up |
| Scope.RunsRecordUpward | app/services/scope.py:280-290 | every run's record names only earlier stages, and a load itself, so the walks end |
| Scope.EveryTraceStaysInScope | app/runtime/trace.py:299-366 | every row a trace of any run visits lies in the scope of the row it began at |
| Predicate.SubstitutingSpreads | app/core/predicate.py:132-149 | replacing OR and then AND in the NOT-rewritten text is one pass over its words |
| Predicate.SpreadIsPython | app/core/predicate.py:132-149 | the rewritten text of an operand is Python's own text of it: a group's parentheses become the outer ones of its operands |
| Predicate.SpreadIsInjective | app/core/predicate.py:132-149 | no two texts are rewritten to one |
| Predicate.PythonReadsTheOperand | app/core/predicate.py:132-149 | on any text of dialect words, well formed or not, Python reads the rewriting as the dialect reads the text as one operand |
| Predicate.NormalizingReads | app/core/predicate.py:132-149 | the exact meaning of the rewriting on every text: the dialect's reading, of the text in parentheses where it holds both operators |
| Predicate.NormalizationPreservesMeaning | app/core/predicate.py:132-149 | every AND/OR/NOT filter with groups is read back by Python, which checks it, as the tree the author wrote; what it is run as is FilterRun's |
| Predicate.ReadsOr | app/core/predicate.py:152-200 | the dialect's reader gives back the tree a text was written from |
| Predicate.PyReadsTest | app/core/predicate.py:152-200 | the reader of Python's precedence gives back the tree its text was written from |
| Predicate.AcceptedFiltersAreWellFormedWhenBalanced | app/core/predicate.py:54-71 | an accepted filter is in the dialect, and means there what Python reads it as, exactly when its parentheses balance |
| Predicate.AnUnbalancedFilterIsAccepted | app/core/predicate.py:132-149 | a filter that closes before it opens is refused by the dialect and accepted by the code |
| FilterRun.WhatIsReadRuns | app/runtime/stages/aggregate.py:91-94 | whatever Python reads runs too, as the operand in which each `not` takes the first of a group's operands |
| FilterRun.AFilterRunsAsMeantExactly | app/runtime/stages/human_review_queue.py:146-150 | every filter of the dialect runs, and as its author's tree exactly where no NOT stands directly before a group with an operator at its own level |
| FilterRun.AcceptedFiltersRunAsMeantExactly | app/core/row_search.py:47-49 | whatever is accepted runs, and as the dialect's tree exactly where its parentheses balance and no NOT stands so |
| FilterRun.ANegatedGroupRunsOtherwise | app/runtime/stages/aggregate.py:91-94 | `NOT ( a OR b )` is balanced, accepted and read as written, and runs as `(NOT a) OR b`, which keeps rows it should drop |
| BranchIds.IdsTellPlacesApart | app/core/branch_source.py:115-158 | ids of different places are different texts |
| BranchWalk.BranchWalker.WalkModule | app/core/branch_source.py:107-112 | finds the branches of every function, in order |
| BranchWalk.BranchWalker.WalkBody | app/core/branch_source.py:115-121 | walks each statement of a body under its index |
| BranchWalk.BranchWalker.WalkIf | app/core/branch_source.py:124-131 | opens the suites of an if and of its elifs, and an else that is no elif |
| BranchWalk.BranchWalker.WalkTry | app/core/branch_source.py:138-143 | opens the try, each handler by its position, and the else |
| BranchWalk.BranchWalker.Open | app/core/branch_source.py:146-150 | records a suite at its first statement, then what is inside it |
| BranchWalk.BranchWalker.WalkChoices | app/core/branch_source.py:153-158 | records the arms of every chain a statement itself evaluates, numbered as found |
| BranchWalk.ScanChoices | app/core/branch_source.py:169-178 | finds each chain once, outermost first, and none in a lambda or comprehension |
| BranchWalk.ReadChainParts | app/core/branch_source.py:181-190 | a chain's parts are its tests and arms, and what is found in them is what is found in the chain |
| BranchWalk.BranchWalker.OpenArms | app/core/branch_source.py:193-200 | records if, each elif and the else of one chain |
| BranchCounts.EveryBranchIsFoundExactlyWhenWalked | app/core/branch_source.py:115-158 | no more is found than is there, and all of it exactly when no elif's test makes a choice and no body of a loop or a with holds a branch |
| BranchCounts.TheIfIsNotFound | app/core/branch_source.py:115-121 | an if in a loop's body: one branch, none found |
| BranchCounts.TheChoiceIsNotFound | app/core/branch_source.py:124-131 | a conditional expression in an elif's test: four branches, two found |
| BranchNames.EveryBranchHasItsOwnId | app/core/branch_source.py:107-158 | for functions of different names no two branches have one id, at any nesting |
| BranchNames.EveryIdIsItsOwn | app/core/branch_source.py:107-158 | nor are any two of those ids the same text |
| Splice.WrapsOutermost | app/core/branch_source.py:78-90 | what is wrapped first is wrapped outermost, and its opener goes with its own closer |
| Splice.InsertIsWeave | app/core/branch_source.py:78-90 | a table of closers and openers put in at once is each character between what opens before it and what closes after it |
| Splice.TheSourceIsUntouched | app/core/branch_source.py:64-71 | taking out what was put in gives the source back |
| Instrument.ExprIsTold | app/core/branch_source.py:78-90 | rewriting an expression's text at the arms found gives the text of the expression with each arm wrapped inside its own parentheses |
| Instrument.StmtIsTold | app/core/branch_source.py:78-104 | the same for a statement and all its suites, whatever spaces, comments and line breaks stand between its parts |
| Instrument.ModuleIsTold | app/core/branch_source.py:64-104 | the same for a whole module |
| Lines.PlaceRecorders | app/core/branch_source.py:78-90 | the table has at each position the closers, innermost first, then the openers, outermost first |
| Lines.SpliceLines | app/core/branch_source.py:64-71 | splicing into the lines in place, last position first, is putting every edit in at once |
| Lines.OrderForReading | app/core/branch_source.py:74-75 | the branches given, each as often, by line, column and id |
| Lines.ReadingOrderIsTextOrder | app/core/branch_source.py:74-75 | by line and then column is by place in the text |
| Lines.InstrumentBranches | app/core/branch_source.py:64-75 | the rewritten source is the text of the module with every branch reporting itself, and the branches listed are those found, in reading order |
| RowCode.RewritingStaysGrammatical | app/core/branch_source.py:82-87 | every operand of a rewritten expression binds as tightly as its place asks for, as each did before |
| RowReader.ReadsWhatIsWritten | app/core/branch_source.py:78-90 | a reader of conditional expressions, `or`, operators, calls and parentheses reads the words of such an expression as the tree it is |
| RowReader.RewrittenCodeReadsBack | app/core/branch_source.py:78-90 | the words of the rewritten expression read back as the rewritten tree, and as no other |
| SuiteLayout.RewrittenSuitesStandExactly | app/core/branch_source.py:93-104 | rewritten, a suite is inside its statement with its first statement level with the call exactly where it was on lines of its own behind text as long and as wide as its indentation, or on its header's logical line behind text that is not blank and begins far enough in |
| SuiteLayout.PlainSuitesAreKept | app/core/branch_source.py:93-104 | without tabs, without backslashes and with its header on one line every suite is kept |
| SuiteLayout.ABackslashLosesTheSuite | app/core/branch_source.py:101-104 | after a backslash at the end of its header no suite is kept, whatever it holds |
| SuiteLayout.FirstStatementStaysLevel | app/core/branch_source.py:93-104 | behind blank text the statement pushed down stays level with that text exactly where each tab widens it by one, and its own text is the same exactly where there is no tab |
| SuiteLayout.MovedSuiteIsInside | app/core/branch_source.py:93-104 | a suite moved down under its header is deeper than its statement exactly where the blanks before it, and four more, reach further than the statement's indentation |
| SuiteLayout.OneLineHeadersAreSafeWithoutTabs | app/core/branch_source.py:93-104 | for a header on one line only a tab can put the suite outside its statement |
| SuiteLayout.WhereTheCallStands | app/core/branch_source.py:93-104 | the lines of the rewritten text that the call and the first statement stand on begin as computed |
| SuiteLayout.AHeaderOnTwoLinesLosesItsSuite | app/core/branch_source.py:101-104 | a header in parentheses over two lines: the suite is put level with its own statement, and lost |
| SuiteLayout.ATabbedHeaderLosesItsSuite | app/core/branch_source.py:101-104 | a one-line statement behind a tab: the suite is put five columns in, its statement stands at eight, and it is lost |
| Meaning.ReportingIsHarmless | app/core/branch_source.py:82-87 | where the recorder's name is the recorder, a wrapped value is the value, and one report before it; with no row open it is refused |
| Meaning.ExecIsTrace | app/core/branch_source.py:64-104 | running a rewritten body, the recorder's name bound nowhere, reports exactly the arms the authored body enters, in order |
| Meaning.TraceIsExec | app/core/branch_source.py:107-158 | naming the arms entered changes nothing of what authored code does |
| Meaning.InstrumentedCodeMeansTheSame | app/core/branch_source.py:64-104 | while a row is open, for every module that binds and calls nothing by the recorder's name, every call and state, the rewritten functions give the same result or exception and the same state, and report the arms entered in order |
| Capture.AReportIsACallByName | app/runtime/code.py:20-23 | what is put in is, as text and as it runs, a call by the recorder's name, of whatever that name is there |
| Capture.ATakenNameHearsNothing | app/runtime/code.py:20-23 | where the module binds the name itself the recorder hears nothing of any call, so a row that enters an arm is never told |
| Capture.ATakenNameAnswersForTheRow | app/core/branch_source.py:82-87 | a module with a function of that name: the row is 1 as authored and the text of an id rewritten, with nothing recorded |
| Loading.LoadIsTrace | app/runtime/code.py:14-24 | loading a rewritten module that leaves the recorder's name alone reports exactly the arms its statements enter, each name bound from its statement on |
| Loading.TraceIsLoad | app/runtime/code.py:14-24 | naming the arms entered changes nothing of what loading authored code does |
| Loading.AModuleLoadsExactlyWhenItEntersNoBranch | app/runtime/branches.py:55-58 | a rewritten module that enters no branch loads as authored; where it enters one and nothing catches the refusal, loading fails with it; so the two are the same exactly when no branch is entered |
| Loading.ACallAtTheTopDoesNotLoad | app/core/starlark_source.py:27-34 | a module that calls its own function at the top loads as authored and is refused rewritten |
| Loading.ACaughtRefusalIsNotSeen | app/runtime/branches.py:55-58 | where the code catches all that is raised the refusal makes no difference, though a branch is entered |
| BranchReports.ReportsAreOffered | app/core/branch_source.py:34-35 | in a module that leaves the recorder's name alone, every id a row reports is that of a branch found in the source |
| Recorder.BranchRecorder.OpenRow | app/runtime/branches.py:49-53 | refused exactly while a row is open |
| Recorder.BranchRecorder.Record | app/runtime/branches.py:55-58 | refused exactly while none is; otherwise appended |
| Recorder.BranchRecorder.CloseRow | app/runtime/branches.py:60-65 | files what was taken under the open row and clears it |
| Recorder.BranchRecorder.ReplayRow | app/runtime/branches.py:67-70 | a hit brings its stored branches, one that stored none changes nothing |
| Recorder.BranchRecorder.RowsKept | app/runtime/branches.py:75-79 | absent exactly when no row took a branch; otherwise each kept row's own branches in output order |
| Recorder.BranchRecorder.RunRow | app/runtime/stages/execution.py:344-358 | a row's code answers as it does, its reports are filed under its row, and the row is closed however it ends |
| Recorder.RunStage | app/runtime/stages/execution.py:344-358 | a module that leaves the recorder's name alone is loaded with no row open; where that ends normally, over a stage's rows, after rows that raised too, each answers as the authored code does and each row kept holds exactly the arms it entered |
| Frontier.ListExecutedFrontier | app/evals/run_settings.py:48-64 | the stack walk lists exactly the stages reached from the target without crossing an injected one, each once |
| Frontier.ReadingIsAPath | app/evals/run_settings.py:83-94 | the recursion answers whether a path of run stages leads to the dataset |
| Frontier.FindBlocking | app/evals/run_settings.py:18-28 | blocking is exactly the run stages that lose the grain or read the dataset off their spine |
| Frontier.OthersAreUntouched | app/evals/run_settings.py:67-80 | a stage that does not read the dataset gives the same output for every dataset |
| Frontier.EveryPathIsTheSpine | app/evals/run_settings.py:67-80 | with nothing blocking, every path from the target to the dataset goes by first inputs |
| Frontier.ScoringByPositionIsSound | app/evals/scoring.py:33-37 | with nothing blocking and a target that reads the dataset, the target has its row count, and changing dataset row j changes no target row but j |
| Frontier.CountsAgreeExactlyWhenRead | app/evals/run_settings.py:18-28 | with nothing blocking, the counts agree for every dataset exactly when the target reads it |
| Frontier.FindDescendants | app/evals/compatibility.py:70-82 | the stack walk lists exactly the other stages from which a path of inputs leads back to the stage given |
| Frontier.CheckCompatibility | app/evals/compatibility.py:25-50 | of the reasons modelled, an eval is offered for scoring by position exactly when its target descends from the override, is no reference override, and nothing blocks |
| Frontier.OfferedLinesUpExactlyWhenNotCutOff | app/evals/compatibility.py:59-67 | what is offered has the dataset's row count for every dataset exactly when some path from the target to it meets no reference override |
| Frontier.ACutOffTargetIsOffered | app/evals/compatibility.py:59-67 | a reference override between the two: offered, and the target's output is the same for every dataset |
| RunLog.ChunkIsAStretch | app/runtime/run_log.py:146-150 | chunk k holds exactly the events numbered from 500k up to 500(k+1), as far as the log goes |
| RunLog.EventStore.CountEvents | app/runtime/run_log.py:157-168 | walking to the first chunk that is not full gives the length of the log |
| RunLog.EventStore.ReadEventsSince | app/runtime/run_log.py:180-192 | gives the log from that number on, negative numbers included |
| RunLog.GroupByChunk | app/runtime/run_log.py:146-150 | each chunk's share of a batch, in order, and nothing else |
| RunLog.EventStore.SaveOne | app/runtime/run_log.py:134-143 | after each chunk saved the store holds a log, the old one and a front of the batch, so that a reader between two saves sees no gap |
| RunLog.EventStore.Flush | app/runtime/run_log.py:134-143 | rewriting the chunks a batch touches appends the batch; a writer killed between two chunks has appended the front of it |
| RunLog.EventStore.Take | app/runtime/run_log.py:112-124 | one message: what is logged and what is pending together grow by its event alone, or the writer is killed and the log by a front of that |
| RunLog.EventStore.Drain | app/runtime/run_log.py:106-124 | a session appends a front of all it was sent, and all of it where it is told to stop and lives to do so, numbered on without a gap, wherever its batches fell |
| RunLog.RunSessions | app/runtime/run_log.py:106-124 | over any number of sessions, killed at any save or out of messages, the log is one gapless list |
| RunLog.Poll | app/web/run_events.py:99-109 | a poll reads all that is new and moves its cursor just past it |
| RunLog.ATailerSeesEachEventOnce | app/web/run_events.py:99-109 | polls over a growing log join into the log from where the tailer began: each event once, in order |
| RunLog.IdOrderIsChunkOrder | app/runtime/run_log.py:171-177 | ids sort as chunk indexes exactly up to a million chunks |
| RunLog.ReadEventsBackward | app/runtime/run_log.py:171-177 | up to then, the chunks come newest first, and turned round are the log |
| TextOrder.RangeIsPrefix | app/core/sqlite_store.py:87-97 | an id lies between the prefix and its upper bound exactly when it begins with the prefix |
| TextOrder.NoRangeFor | app/core/sqlite_store.py:90-91 | a prefix has no upper bound exactly when no character comes next to its last, and exactly when that is U+10FFFF or U+D7FF |
| TextOrder.PaddedAscends | app/models/records/run_events.py:18-20 | below a million, padded numbers sort as the numbers |
| TextOrder.AMillionComesTooEarly | app/models/records/run_events.py:18-20 | the millionth sorts before the one it follows |
| Store.SqliteKvStore.Write | app/core/sqlite_store.py:31-38 | replaces one document and no other |
| Store.SqliteKvStore.Delete | app/core/sqlite_store.py:67-72 | removes one document and no other |
| Store.SqliteKvStore.ListIds | app/core/sqlite_store.py:87-100 | exactly the collection's ids that begin with the prefix, in order, or an error for a prefix with no bound |
| Store.SqliteKvStore.ReadAll | app/core/sqlite_store.py:128-131 | exactly their documents, in id order |
| StageCache.PrefixFindsTheStage | app/core/stage_cache.py:52-58 | without slashes in its parts, a stage's prefix begins exactly that stage's ids |
| StageCache.IdsKeepKeysApart | app/core/stage_cache.py:57-58 | without slashes, different keys have different ids |
| StageCache.AnIdIsItsOwnExactlyWithoutSlashes | app/core/stage_cache.py:57-58 | no other key has a key's id exactly when none of its four parts holds a slash |
| StageCache.RowCache.Get | app/core/stage_cache.py:78-83 | finds the entry of its own key or none |
| StageCache.RowCache.FindRecordedEntries | app/core/stage_cache.py:92-99 | a stage's entries, each under its input's fingerprint: all of them and no others |
| StageCache.RowCache.RecordRow | app/core/stage_cache.py:106-126 | the last entry recorded is the one found, and no other key changes |
| StageCache.RowCache.CopyEntryInto | app/core/stage_cache.py:128-145 | copies exactly where nothing is; an entry that is there is never changed |
| Schema.ColumnSpecDifferences | app/models/schema.py:254-262 | lists exactly the fields of the spec two columns differ in |
| Schema.SpecEqualIsSameSpec | app/models/schema.py:254-275 | the recursive comparison is equality of the columns' specs, prose stripped and sub-columns taken by name at every depth |
| Schema.SpecEqualityIsAnEquivalence | app/models/schema.py:265-275 | reflexive, symmetric and transitive |
| Schema.ProseAndOrderSayNothing | app/models/schema.py:247-251 | name, prose and the order of sub-columns make no difference |
| Schema.FindUnsatisfiedColumns | app/models/schema.py:411-428 | names exactly the required columns the producer's column of that name does not satisfy |
| Schema.ForgiveNullable | app/models/schema.py:422-426 | nullability is forgiven exactly where the requirement allows null or the producer never gives it |
| Schema.SatisfactionIsAPreorder | app/models/schema.py:408-428 | both ways of taking nulls, satisfaction is reflexive and transitive |
| Schema.SubtractUndoesExtend | app/models/schema.py:370-395 | taking the original from its extension leaves the adds and the rewrites that change a spec; strictly, it is refused exactly when there is one of those |
| Signature.MigrationKeepsTheSchema | scripts/stage_signatures.py:143-167 | refuses exactly where a column was dropped; otherwise each name has the stored column again, and with drops allowed the output is wider by exactly the dropped ones |
| Signature.WhatTheOtherTypesKeep | scripts/stage_signatures.py:109-140 | for llm and filter stages the stored schema survives exactly when the parts they leave out were empty |
| Disagreement.RankValues | app/core/file_shape.py:102-105 | the commonest values in rank order with their counts, and every value left out ranks after all kept |
| Disagreement.TopFitsInFilled | app/core/file_shape.py:87-105 | kept counts never exceed the filled count |
| Disagreement.ReadDistribution | app/core/file_comparison.py:101-112 | absent exactly for an empty column or less than half covered; otherwise the shares and the rest |
| Disagreement.DistributionsAddUp | app/core/file_comparison.py:101-112 | shares are from 0, add up to at most 1, and to 1 exactly when no kept value is the rest's own name |
| Disagreement.DistanceIsAMetric | app/core/file_comparison.py:96-98 | symmetric, with the triangle inequality, from 0 to 1, and 0 exactly between equal distributions |
| Disagreement.DisagreementIsAMean | app/core/file_comparison.py:87-93 | the mean over all pairs is from 0 to 1, and 0 exactly when all distributions are equal |
| Disagreement.DistributionOfColumn | app/core/file_comparison.py:101-112 | what is read of any column's cells is a distribution those measures hold for |

## Left out

- File, parquet, csv, xlsx and SQLite I/O: a stored table or document reads back equal, or is lost where a run may lose it.
- LLM calls, agents, reviewers, prompts, and the handlers of the stages: a handler is any deterministic function of its input tables and the state of the world.
- Threads, locks and clocks: the log writer is one consumer of a queue with arbitrary timeouts; `emit` racing `close` is not modelled.
- The report stage's manual files and the manifest's prose (notes, messages, timestamps).
- Regular expressions and the backtick quoting of the filter dialect: a filter is a sequence of words, an atom holds no operator word, and parentheses enclose boolean groups only; the separate length limits and the checks inside an atom are not modelled.
- The character positions of non-ASCII source, line ends other than a newline, `while`, `match` and `finally`, nested functions, methods and what decorates them, `global` and `nonlocal`, and the type expression of a handler, in row code; a lambda's or comprehension's own calls are opaque, and so are the conditional expressions inside an f-string, which the code does walk.
- Code that reads the recorder's name without calling it: the text of an atom is opaque.
- What a `def` line itself evaluates when it is loaded (decorators and parameter defaults).
- RowReader.RewrittenCodeReadsBack: reads words, not characters, and leaves open how the operators above `or` bind among themselves, between which nothing is put.
- Capture.ATakenNameHearsNothing: where only some function's own parameter or variable has the recorder's name, which reports are lost is not stated.
- Meaning.InstrumentedCodeMeansTheSame: the frame a report itself takes is not counted against the recursion limit, so code within one call of the limit may reach it only when rewritten.
- Loading.AModuleLoadsExactlyWhenItEntersNoBranch: where a handler may catch the refusal, what the handler then does is the code's own; entering no branch is enough then, and `Loading.ACaughtRefusalIsNotSeen` shows it is not needed.
- How the recorder interleaves with the code: a row's reports are filed in their order once it has run.
- Branch labels and end lines, which only point a reader at a line.
- `_expand` and the sample choices behind merges, which rest on the branch-analysis package: it is not part of this model.
- `find_stages_reaching_report`, `find_stages_upstream_of` and the row-type rules of a workflow: easy members beside the graph searches.
- The signatures of joins, aggregates and review queues, which are read off the stage's configuration.
- Histogram bins, medians and the classification of a column.
- Floating point: shares and distances are exact numbers.
- Python's negative indexing in `_one_hop_up`: row ordinals are never negative.
- Scope.ReachUpstream: for records whose edges go to earlier stages, as those of every run do (Scope.RunsRecordUpward).
- Recorder.RunStage: rows answered from the cache are covered by ReplayRow alone.
- Frontier.CheckCompatibility: the column and schema checks of an eval are not modelled, nor one with a code scorer, which is never scored by position.
- Frontier.ScoringByPositionIsSound: a handler's own contract (a mapped row depends on its subject row and on the other inputs as wholes) is taken from its stage type.
