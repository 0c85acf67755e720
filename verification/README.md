# Verified model of the jopa compiler's analyses

A Dafny model of the hardest algorithms of the jopa Java compiler, with proofs of what they promise:

- **Statement analysis** (`src/body.cpp`): reachability, the ability to complete normally, checked exceptions
  and catch clauses, proved sound and complete against a run-time semantics of Java statements.
- **Local variable slots** (`src/body.cpp`): no two things live at the same time share a slot, and each gets the
  lowest slot it can.
- **Switch labels** (`src/ast.cpp`, `src/body.cpp`): the in-place quicksort with its fixed stack, the binary
  search, duplicate labels and label numbers, and string labels compared by hash code.
- **Storage** (`src/ast.h`, `src/ast.cpp`): the storage pool over whole runs, its safety and its thrift, and the
  segmented array built on it.
- **The character table** (`docs/gencode.java`, `src/code.h`): the overlap packer and the 16-bit look-up.
- **The preprocessor rewriter** (`scripts/remove_windows_code.py`): which files keep their meaning, and from which
  all Windows code goes.
- **Type searches** (`src/body.cpp`): the pruned throws list, the multi-catch parameter type, and the element
  type of an `Iterable`.

`dafny verify dfyconfig.toml` checks everything.

## How the model is built

**Statements.** `JavaAst` is the syntax tree as the parser leaves it: each loop stands alone in a block of its
own, labels are on blocks, a switch group always has a statement. Nodes have identities, and the flags of a node
are sets of identities. An expression is reduced to the exceptions that its calls declare and to its value if it
is a constant boolean. `Runs` says what a statement may do at run time: a run is a tree of the runs of the
statements it executed, with an outcome (normal, break, continue, return, throw, or stopped). Since a run may
stop anywhere, the theorems also cover every finite part of a run that never ends. A throw of a class may raise
any subclass, a call any subclass of what it declares, and everything may raise unchecked exceptions, also between
two statements. Constants decide the conditions of loops; an if may go either way whatever its condition, as the Java
Language Specification has it for reachability (section 14.21 of the Java SE 7 edition).

`Flow` gives the analysis as a function of the tree; `FlowSound` proves it sound by induction over runs; `Reporting`
proves reports and marks to agree, and `ClauseReports` that no run enters a catch clause that was reported. The other
direction has a module for each result: `Embeddings` puts runs of parts together, `Completion` shows that a statement
taken to be able to complete or to jump does so in some run, `NodeRuns` the same for every node of a body,
`DeadClauses` under exactly which condition on catch clauses, `Gaps` where unreachable statements are reported,
`Causes` exactly which exceptions and catch clauses are, and `Naming` exactly which labels and jumps.
`Semantic.Analyzer` is the analysis as the compiler runs it: one pass that sets flags, some on distant nodes, and
pushes and pops stacks. Each of its methods is proved to leave exactly the state that the function predicts, and
`Semantic.CheckMethod` states the theorems about the object after the pass. An empty stack of abrupt finally levels
counts as a level below every jump target.

Statements of a for header, initialisers and updates, never get their reachable flag, as the code processes them
without setting it: `MethodBodies.ForInitialiserRunsUnmarked` is the smallest program that shows it. The
reachability theorem leaves these statements aside.

**Slots.** `Slots` says which slot everything gets. `SlotSafety` lists the slots that the emitted code stores to (the
array, its length and the counter of a foreach; the exception, return address and result of a finally clause; both
halves of a long), defines what must not collide and proves it. `SlotCount` and `SlotReuse` prove that nothing is
wasted. `SlotAllocator.Allocator` is the allocator with its mutable indices, block stack and enclosed maxima.

**Other parts** follow the same plan: the code's loops and in-place updates are methods over arrays or fields,
proved against functions or stated properties, and the lemmas beside them give the meaning.

## Where the code does not keep a promise

- A catch clause that can catch nothing because an earlier one catches all that the try block throws still counts as
  reachable: after `catch (FileNotFoundException e)`, a `catch (IOException e)` for a throw of the former is taken to
  be entered, and the method to be able to complete (`DeadClauses.SecondClauseDead`). In a body without reports about
  unreachable code or names, all that is marked is executed in some run if and only if every clause is the first to
  catch something in some run of its try block (`DeadClauses.ReachedExact`).
- Synchronized statements reserve slots that they do not use, as a comment in the code admits; no other slot is
  wasted (`SlotCount.CountTaken`).
- A Windows block or branch inside the part that is kept of another Windows block stays
  (`WinGone.NestedStays`). All are gone exactly if there is none in such a part (`WinGone.FileGone`).
- A pool whose **first** request is larger than a segment leaves its offset at 0, so the next request is given
  the same memory again or has the first segment deleted. `Pool.PoolSafety` shows that this is the only way to
  break the pool, without `Reset`: a run is good if and only if its first request fits a segment or is the only
  one.
- The growth step of a segmented array is kept in 16 bits; it becomes 0, and the first element has nowhere to go,
  exactly if the estimate exceeds 2^14 pool segments (`SymbolArray.IncrementPositive`).
- Removal of Windows code changes the meaning of blocks with both a foreign `#elif` and an `#else`, of blocks
  with two or more foreign `#elif`, and of blocks whose `#else` has a comment behind it and no foreign `#elif`
  before it. A branch that mentions a Windows macro but can hold without one, such as
  `#elif !defined(HAVE_DIRECT_H) && defined(A)`, is lost unless it follows a foreign one that is kept.
  `WinShapes.ShapesExact` is the exact condition on the branches of a block.
- A compound condition that starts with a Windows macro, such as `#if defined(HAVE_DIRECT_H) || defined(A)`, is
  removed though `A` may be defined (`WinShapes.OrLosesOurs`). Removal is right whatever the block contains
  exactly if the condition cannot hold without Windows macros (`WinShapes.HeadExact`, and
  `WinShapes.ElifHeadExact` for an `#elif` branch removed from another block), which is so if it has no `||`
  outside parentheses (`WinBlocks.HeadOnlyWindows`).
- A `? super T` on the way to the element type of an `Iterable` is dropped, so `T` is found instead of `Object`,
  for `Iterable<? super T>` (`IterableTypes.DirectExact`) as for a `Collection<? super Integer>`
  (`IterableTypes.SuperOfCollection`). The erasure found is wrong exactly if the fully substituted argument is a
  `? super` of something with an erasure of its own (`IterableTypes.ElementErasure`).
- String switch labels are compared by hash code: with labels "Aa" and "BB" the second is reported as a duplicate
  (`StringLabels.DifferentStringReported`). Just the labels that repeat a string are reported if and only if
  different strings among the labels have different hash codes (`StringLabels.ProcessStringLabels`).
- The midpoint sum `lower + upper` of the quicksort can overflow an int with more than 2^30 cases: from cases that
  are already in order the sort comes to a section of the last two or three (`CaseSort.LastVisited`). For every
  content of n distinct cases all sums met are ints exactly if n is at most 2^30 (`CaseSort.MidpointExact`). The
  sort is proved for every content whose sums are ints, and its stack bound up to 2^31 (`CaseSort.DepthBound`).

## Model

| member | source | states |
|---|---|---|
| Classes.SubclassTransitive | src/body.cpp:2012 | being a subclass is transitive, in any finite single-inheritance hierarchy |
| Classes.SuperclassesComparable | src/body.cpp:2663-2704 | two superclasses of one class are comparable, the tree shape that the catch clause rules need |
| Classes.CheckedUpward | src/body.cpp:1966-1973 | superclasses of a checked exception are checked |
| FlowSound.Sound | src/body.cpp:11-87 | for every run of every statement in every context: if it completes, the analysis says it can; if it jumps, the target is marked unless an abrupt finally clause discards the jump; if it throws, a superclass was collected and is uncaught only if reported; all it executed is marked |
| FlowSound.SoundSeq | src/body.cpp:30-72 | the same for statements in order, cut short by the first that does not complete |
| FlowSound.SoundBlock | src/body.cpp:90-162 | the same for a block, whose label catches the breaks that name it |
| FlowSound.SoundIf | src/body.cpp:434-474 | the same for if, both branches taken to be possible; that it completes only if a branch does is part of Completion.Complete |
| FlowSound.SoundWhile | src/body.cpp:477-546 | the same for any number of rounds of a while loop |
| FlowSound.SoundFor | src/body.cpp:549-644 | the same for a for loop with initialisers and updates |
| FlowSound.SoundForeach | src/body.cpp:1308-1327 | the same for a foreach loop |
| FlowSound.SoundDo | src/body.cpp:1668-1719 | the same for a do loop, whose condition is reached only if the body can complete or continue |
| FlowSound.SoundSwitch | src/body.cpp:1593-1609 | the same for a switch entered at any group or none, falling through |
| FlowSound.SoundTry | src/body.cpp:2210-2797 | the same for try, any catch clause taken, and a finally clause that may discard the outcome |
| FlowSound.SoundFinally | src/body.cpp:2284-2292 | an abrupt finally clause replaces the outcome of the try block or clause, a normal one keeps it |
| FlowSound.TakenClauseIsProcessed | src/body.cpp:2663-2704 | a clause that catches what a run throws is reachable and not blocked by an earlier clause |
| FlowSound.UncaughtUp | src/body.cpp:1975-2031 | if an instance of a class is uncaught then so is the class as declared |
| FlowSound.EvalPredicts | src/body.cpp:2142-2206 | whatever an expression or throw raises was collected and, if uncaught, reported |
| Completion.Complete | src/body.cpp:11-87 | the converse, for every statement kind in every context: without reports about unreachable code or names, and with no dead catch clause, a statement taken to be able to complete does so in some run, and every jump target that is marked is jumped to in some run |
| NodeRuns.Shown | src/body.cpp:11-87 | under the same conditions every node of a statement that is marked reachable is executed in some run of it, and every one marked able to complete completes in some run |
| NodeRuns.BodyShown | src/body.cpp:3287-3326 | for a method body under these conditions: it is taken to be able to complete if and only if some run ends normally, and all marks of its nodes are earned by runs |
| DeadClauses.ReachedExact | src/body.cpp:2663-2704 | of a body without such reports, every marked node is executed in some run if and only if every catch clause is the first to catch something in some run of its try block |
| DeadClauses.SecondClauseDead | src/body.cpp:2663-2704 | a second clause for a superclass of all that is thrown is marked and the body taken to complete, though no run enters the clause and none ends normally |
| MethodBodies.BodySound | src/body.cpp:3287-3326 | how every run of a method body ends is what the analysis predicts, and all it executes is marked |
| MethodBodies.ReachabilitySound | src/body.cpp:11-87 | in every run a statement that is executed was marked reachable, and one that completes normally was marked able to, for headers aside |
| MethodBodies.CheckedExceptionsSound | src/body.cpp:1966-2031 | if no uncaught exception is reported, a checked exception leaves a body only if a throws clause, or one of each constructor, names a superclass |
| MethodBodies.NeverFallsOff | src/body.cpp:3291-3313 | a non-void method accepted without a missing-return error never completes normally |
| MethodBodies.ReportedClauseNeverEntered | src/body.cpp:2663-2704 | wherever a try statement stands, a catch clause that one of its runs enters passes both clause checks |
| Causes.CaughtExact | src/body.cpp:2007-2014 | the walk over the enclosing try statements finds an exception caught if and only if one of them has a clause for its class or a superclass, or a finally clause that cannot complete |
| Causes.ExactStmt | src/body.cpp:2142-2206 | for every statement, reachable or not, in every context: which of its nodes are reported for which exception, and which exceptions it is taken to throw, by the paths on which an exception escapes |
| Causes.UncaughtExact | src/body.cpp:1975-2087 | for any method body a node is reported for an exception if and only if that is checked, no throws clause names a superclass, and the node declares or throws it with no try statement in between that handles it |
| Causes.ClauseReportsExact | src/body.cpp:2663-2704 | in any context a catch clause is reported unreachable if and only if nothing the try block is taken to throw is a subclass or superclass, and blocked if and only if it is not and an earlier clause is for its class or a superclass |
| Naming.BodyNamesExact | src/body.cpp:90-162 | with no catch clause reported, exactly the repeated labels and the breaks and continues without a target in scope are reported, and a missing return exactly if the body of a non-void method is taken to complete |
| ClauseReports.ReportedClausesNeverEntered | src/body.cpp:2663-2704 | in no run of a method body is the block of a catch clause executed that was reported unreachable or blocked anywhere in the body |
| ClauseReports.ClearRun | src/body.cpp:2210-2797 | no run of any statement executes a clause rejected within it, by induction over runs, as reports about one part name no node of another |
| ClauseReports.RejectsInside | src/body.cpp:2663-2704 | clause reports made while a statement is analysed are about clauses inside it |
| MethodBodies.ForInitialiserRunsUnmarked | src/body.cpp:566-567 | the initialiser of `for (x;;) {}` runs and is not marked |
| FlowBounds.AnalyzeBounded | src/body.cpp:1747-1776 | analysis of a statement marks only its own nodes and the targets of enclosing breaks and continues |
| FlowBounds.HeadersBounded | src/body.cpp:566-567 | statements of for headers are not marked |
| Reporting.NoSilentUnreachableCode | src/body.cpp:30-72 | if no unreachable statement, loop body or clause is reported, every node but for headers is marked reachable |
| Reporting.ReportsTrue | src/body.cpp:46-72 | a statement or loop body reported unreachable is a node of the method that stays unmarked |
| Reporting.UnreachableReportsExact | src/body.cpp:527-532 | with no catch clause reported, something is reported unreachable if and only if some node stays unmarked |
| Gaps.BodyGapsExact | src/body.cpp:46-72 | a statement is reported unreachable if and only if it is the first statement of a reached block that is not reached, or the body of a reached loop that is not reached |
| Gaps.ReportedNeverRuns | src/body.cpp:527-532 | no run of a body executes a statement that is reported unreachable |
| Gaps.DeadCodeExact | src/body.cpp:11-87 | with names in order and no catch clause reported or dead, something is reported unreachable if and only if some statement is executed in no run |
| Semantic.CheckMethod | src/body.cpp:3262-3328 | after the pass over a body the object's flags and errors are the function's. For all runs: executed statements are marked, no reported catch clause or statement is executed, accepted bodies let out only declared checked exceptions, accepted non-void bodies do not fall off their end. Conversely, with no dead clause and no report of unreachable code or names, a missing return is reported if and only if some run of a non-void body ends normally, and all flags are earned by runs. Uncaught exceptions, unreachable statements, and with no clause reported labels and jumps, are reported exactly where they should be |
| Semantic.Analyzer.IsUncaught | src/body.cpp:1975-2087 | the loop from the innermost try statement out finds an exception uncaught if and only if it is checked, no try statement around has a clause for its class or a superclass or an abrupt finally clause, and no throws clause announces it |
| Semantic.Analyzer.ProcessThrows | src/body.cpp:2142-2206 | each declared exception goes to the innermost exception set and is reported exactly if uncaught |
| Semantic.Analyzer.ProcessBlockStatements | src/body.cpp:11-87 | flags, first unreachable statement and reports of statements in order are those of the function |
| Semantic.Analyzer.ProcessBlock | src/body.cpp:90-162 | the same for a block, its label and its level; stacks are as before |
| Semantic.Analyzer.ProcessIfStatement | src/body.cpp:434-474 | the same for if |
| Semantic.Analyzer.ProcessLoop | src/body.cpp:477-546 | the common part of while and for: the body's flag, its report if it cannot be entered, exits by condition or break |
| Semantic.Analyzer.ProcessWhileStatement | src/body.cpp:477-546 | the same for while |
| Semantic.Analyzer.ProcessForStatement | src/body.cpp:549-644 | the same for for |
| Semantic.Analyzer.ProcessForeachStatement | src/body.cpp:834-1327 | the same for foreach, its flags and stacks |
| Semantic.Analyzer.ProcessDoStatement | src/body.cpp:1668-1719 | the same for do |
| Semantic.Analyzer.ProcessSwitchStatement | src/body.cpp:1330-1665 | the same for switch, with the block of the switch as break target |
| Semantic.Analyzer.ProcessSynchronizedStatement | src/body.cpp:327-408 | the same for synchronized |
| Semantic.Analyzer.ProcessBreakStatement | src/body.cpp:1722-1781 | a break marks its distant target exactly if no abrupt finally level lies between |
| Semantic.Analyzer.ProcessContinueStatement | src/body.cpp:1784-1874 | the same for continue and loop bodies, with the errors for wrong labels |
| Semantic.Analyzer.ProcessReturnStatement | src/body.cpp:1877-1957 | a return completes nothing |
| Semantic.Analyzer.ProcessThrowStatement | src/body.cpp:2142-2206 | a throw collects and checks the static class of its expression |
| Semantic.Analyzer.ProcessTryStatement | src/body.cpp:2210-2797 | finally first, then try block and clauses on the adjusted stacks; what is not caught goes to the enclosing set |
| Semantic.Analyzer.ProcessClauses | src/body.cpp:2663-2768 | each clause is processed or reported, and the exceptions definitely caught are exactly those below some clause's class |
| Semantic.Analyzer.ProcessMethodBody | src/body.cpp:3262-3328 | the outermost block, the added return of void methods and the missing-return error |
| SemanticState.FlagTells | src/body.cpp:1747-1776 | the completion flag a node ends with is the computed completion, whatever jumps mark it on the way |
| SlotSafety.MethodSlotsSafe | src/body.cpp:79-85 | in the layout of a body nothing live together shares a slot, parameters included, and the final count exceeds every slot |
| SlotSafety.StmtSafe | src/body.cpp:101-161 | every statement puts its variables and helpers in slots off everything live, and its slots lie past the scope or in shared helpers |
| SlotSafety.LocalsSafe | src/body.cpp:254-277 | declarators get consecutive slots, two for long and double |
| SlotSafety.ForeachSafe | src/codegen/bytecode_stmt.cpp:3188-3195 | the slots that a foreach stores to, three over an array and one with an iterator, keep off its variable and its body |
| SlotSafety.SyncSafe | src/body.cpp:364-402 | the helper slots of synchronized keep off its body and off live variables, also when shared by several statements |
| SlotSafety.SwitchSafe | src/body.cpp:1541-1577 | variables of a group stay live in later groups, and nested blocks keep off them |
| SlotSafety.FinallySafe | src/body.cpp:2227-2274 | helpers and slots of a finally clause lie below the start of the try block and clauses |
| SlotSafety.TrySafe | src/body.cpp:2594-2615 | try block and clauses keep off the finally clause, its helpers and all live variables |
| SlotSafety.AreasExact | src/body.cpp:953-956 | the areas stepped over for variables, foreach and finally helpers hold exactly the slots that the emitted code stores to, and those of synchronized at least |
| SlotCount.CountTaken | src/body.cpp:355-378 | every slot below the final count is a parameter's, stored to, or in the helper area of a block with a synchronized statement |
| SlotReuse.MethodSlotsTight | src/body.cpp:101-161 | each variable and helper gets the lowest slot it can: below it everything is live or in a helper area of a block around, so slots of closed blocks are used again |
| SlotAllocator.FitsExtends | src/body.cpp:101-161 | slots given later never disturb a layout that fits |
| SlotAllocator.Allocator.ProcessStatement | src/body.cpp:79-161 | processing a statement gives its slots exactly as laid down and changes only its own entries and the top block's |
| SlotAllocator.Allocator.EnterBlock | src/body.cpp:101-161 | a block ends with the highest index inside it, and the enclosing maximum takes it in |
| SlotAllocator.Allocator.ProcessLocalVariable | src/body.cpp:254-277 | the loop over declarators gives consecutive slots in the block that scopes them |
| SlotAllocator.Allocator.ReserveHelper | src/body.cpp:364-378 | the first statement of a block that needs helpers reserves them for all |
| SlotAllocator.Allocator.DeclareForeach | src/body.cpp:906-956 | variable and helper slots of a foreach; that they are as many as the emitted code stores to is SlotSafety.AreasExact |
| SlotAllocator.Allocator.ProcessGroup | src/body.cpp:1541-1577 | a switch group shares the block of the switch and keeps its own maximum |
| SlotAllocator.Allocator.ProcessTryStatement | src/body.cpp:2227-2768 | finally clause, parameters, try block, clauses in the code's order get the slots laid down |
| SlotAllocator.Allocator.ProcessMethodBody | src/body.cpp:3416-3451 | the final index of a body is the count of its layout |
| SlotAllocator.AllocateSlots | src/body.cpp:101-161 | the slots the allocator hands out for any method body are free of interference, as low as they can be, and below the final count, and none below it is wasted but for synchronized statements |
| CaseSort.Switch.SortCases | src/ast.cpp:139-200 | cases 1 to n end sorted by value, group and label, a permutation, with slot 0 untouched, with 32 stack entries, whenever no midpoint sum overflows, so for any n up to 2^30; the sections visited are those of the trace |
| CaseSort.Switch.Partition | src/ast.cpp:162-183 | the in-place loop leaves smaller elements before the pivot, the others after it, and the rest alone, as the function that the trace uses says |
| CaseSort.MidpointExact | src/ast.cpp:166 | for every content of n distinct cases the sums of the ends of all sections visited are ints, if and only if n is at most 2^30 |
| CaseSort.LastVisited | src/ast.cpp:162-197 | with cases in order the sort visits a section that ends with the last case and starts at most two before it |
| CaseSort.AscendingPartition | src/ast.cpp:162-183 | partitioning cases in order splits them in the middle and moves nothing |
| CaseSort.TraceWithin | src/ast.cpp:157-197 | every section visited lies within the cases and has two or more |
| CaseSort.Switch.Divide | src/ast.cpp:185-197 | the larger part is stacked, the smaller one goes on, and stack indices stay below 31 |
| CaseSort.PendingSplit | src/ast.cpp:162-197 | partitioning keeps every other section of the work list confined and adds the pivot's place to what is settled |
| CaseSort.DepthBound | src/ast.cpp:143-144 | a section of two or more elements lies at a stack depth below 30, for any n below 2^31 |
| CaseSort.SplitStep | src/ast.cpp:185-197 | stack entries halve with depth, and the remaining work shrinks |
| CaseSort.Switch.CaseForValue | src/ast.cpp:207-223 | on sorted cases the binary search returns a case with the value if there is one, else the default slot, agrees with a linear scan, and its unsigned indices do not wrap |
| CaseSort.Switch.AddCase | src/ast.h:6699-6706 | a case is appended behind the reserved slot |
| CaseLabels.ProcessLabels | src/body.cpp:1388-1638 | for any labels: exactly those that repeat an earlier constant are reported, as many as cases minus distinct values; exactly the later defaults are reported; if all is valid, the numbers are a bijection onto 0 to n-1 |
| CaseLabels.NeighboursRepeat | src/body.cpp:1623-1637 | comparing sorted neighbours finds exactly the labels that are not first in source order |
| CaseLabels.ReportedCount | src/body.cpp:1623-1637 | reported labels and distinct values add up to the labels compared |
| CaseLabels.NumbersBijective | src/body.cpp:1519-1523 | with the default's number given early, all label numbers form a bijection |
| CaseLabels.AllCasesMeaning | src/body.cpp:1397-1530 | the collected cases are exactly the accepted labels, in source order |
| CaseLabels.CollectLabels | src/body.cpp:1388-1530 | the nested loops over groups and labels collect the cases and the first default |
| CaseLabels.NumberCases | src/body.cpp:1616-1638 | the loop over sorted cases numbers them and reports repeats |
| StringLabels.ProcessStringLabels | src/body.cpp:1460-1480 | for any string labels: reported are exactly those whose hash code an earlier label has, and these are just the repeated strings if and only if different strings among the labels have different hash codes |
| StringLabels.StringReportsExact | src/body.cpp:1616-1638 | the same equivalence for any set of reports by hash code; a repeated string is always among them |
| StringLabels.HashOf | src/body.cpp:1474-1477 | the loop over the bytes gives the polynomial in 31, wrapped to 32 bits |
| StringLabels.HashMeaning | src/body.cpp:1474-1477 | wrapping at each step is wrapping the polynomial once |
| StringLabels.DifferentStringReported | src/body.cpp:1616-1638 | "Aa" and "BB" share the hash code 2112, so the second is reported and repeats no string |
| Pool.PoolSafety | src/ast.h:4571-4605 | over any run of requests, whatever clients write, all regions stay disjoint, in unfreed segments, as large as asked for rounded up to cells, and zero when handed out, if and only if the first request fits a segment or is the only one |
| PoolThrift.PoolThrift | src/ast.h:4571-4605 | over any run of a sound pool each request of at most a segment comes right behind the one before, or starts a new segment because it does not fit, and at most twice what was asked for is held, but for one segment |
| Pool.RequestNormal | src/ast.h:4571-4605 | a request in a sound pool with a normal segment open keeps it sound, oversized requests and segment swaps included |
| Pool.WriteNormal | src/ast.h:4567-4605 | what clients write to their regions never spoils the zeroed rest of a segment |
| Pool.SecondUnsound | src/ast.h:4574-4590 | after an oversized first request the second one overlaps or frees the first region |
| Pool.StoragePool.constructor | src/ast.h:4515-4559 | segments of 256, 1024 or 4096 cells by the estimate, and a base vector grown by twice the slots for the least power of two that reaches it, and three |
| Pool.StoragePool.AllocateMoreSpace | src/ast.h:4471-4508 | growth of the base vector and a new segment, as the step function says |
| Pool.StoragePool.Alloc | src/ast.h:4571-4605 | a request changes the pool exactly as the step function says |
| Pool.StoragePool.AllocSmall | src/ast.h:4591-4605 | in a valid pool a request of at most a segment gives a zero region apart from all others, and no memory in use changes |
| Pool.StoragePool.Destroy | src/ast.cpp:15-28 | the destructor frees every segment exactly once |
| SymbolArray.VariableSymbolArray.constructor | src/ast.cpp:95-126 | the exponent is the least that reaches the estimate, lowered until a segment fits the pool; the loops terminate |
| SymbolArray.VariableSymbolArray.AllocateMoreSpace | src/ast.cpp:35-92 | growth appends zeroed places and changes no element |
| SymbolArray.VariableSymbolArray.GrowBase | src/ast.cpp:57-75 | a longer base vector changes no element |
| SymbolArray.VariableSymbolArray.NextIndex | src/ast.h:73-79 | the next index, grown if needed, old elements as they were |
| SymbolArray.VariableSymbolArray.Next | src/ast.h:85-89 | storing through Next appends to the sequence |
| SymbolArray.VariableSymbolArray.Get | src/ast.h:68 | indexed reading through adjusted segment pointers gives the last value stored |
| SymbolArray.VariableSymbolArray.Set | src/ast.h:68 | indexed storing changes that element only |
| SymbolArray.VariableSymbolArray.Reset | src/ast.h:50-54 | the length changes, no element does |
| SymbolArray.ElementsApart | src/ast.h:68 | different indices lead to different memory cells |
| SymbolArray.OtherWrite | src/ast.h:68 | other clients of the pool cannot change an element |
| SymbolArray.MoreGiven | src/ast.cpp:83-86 | other requests to the pool change no element |
| SymbolArray.IncrementPositive | src/ast.cpp:106-118 | the 16-bit growth step is positive exactly if the estimate is at most 2^14 pool segments |
| CodeTable.Generate | docs/gencode.java:63-192 | for any table: each of the nine estimates is the size of a packing for its shift, without overlaps left and with every block used once; the first shift with the least estimate below the plain length is used with that packing, or none; up to 2^16 characters every look-up gives the plain entry |
| CodeTable.LookupAgrees | src/code.h:134-163 | the look-up expression in 16-bit arithmetic gives the plain table's entry |
| CodeTable.IndexExact | src/code.h:137 | the computed index is the right one exactly if the right one is below 2^16 |
| CodeTable.PackingHolds | docs/gencode.java:184-192 | every original block is found in the packed string |
| CodeTable.PackingLength | docs/gencode.java:141-171 | a packed string is as long as the different blocks one after the other, less the overlaps of equal characters that its strings are joined on |
| CodeTable.Packer.MergeInto | docs/gencode.java:113-161 | a string takes in every string that ends with its head, in place; the tail lists stay exact, the length right, and the loop ends |
| CodeTable.Packer.Pass | docs/gencode.java:92-162 | after the pass for j no two strings overlap by j characters, nor by more |
| CodeTable.Packer.PackAll | docs/gencode.java:92-162 | at the end no two strings overlap at all, and every block survives |
| CodeTable.Packer.TakeTail | docs/gencode.java:120-139 | an index other than the string's own is taken from the list, the string's own put back |
| CodeTable.Packer.RecordTails | docs/gencode.java:94-107 | each live index is listed exactly once, under its own tail |
| CodeTable.Packer.CollectBlocks | docs/gencode.java:70-85 | the strings are exactly the blocks of the table, each once, with the right total length |
| CodeTable.Packer.Concatenate | docs/gencode.java:163-171 | the joined length is the running length, so the assertion holds |
| CodeTable.FindDistances | docs/gencode.java:184-192 | each block gets its wrapped distance, and indexOf never fails |
| CodeTable.MergeStep | docs/gencode.java:141-159 | one merge keeps blocks, their single use, maximality, tail lists and counts; the list to rename in is never missing |
| Packing.MergeCovers | docs/gencode.java:144-145 | merging loses no block |
| Origins.MergeAccounted | docs/gencode.java:141-159 | merging keeps the strings spelled by blocks of the table, overlapped on equal characters, each block used exactly once |
| Packing.MergeKeepsNoOverlap | docs/gencode.java:144-159 | merging at a shorter overlap brings no longer overlap back |
| Packing.MergeKeepsSettled | docs/gencode.java:144-159 | merging keeps the strings already passed free of matches |
| Packing.MergeTotals | docs/gencode.java:146-147 | a merge lowers the total length by the overlap and the count by one |
| Packing.ListedAfterMerge | docs/gencode.java:138-158 | the tail lists stay exact through removal and renaming |
| Preprocessor.PreprocessFile | scripts/remove_windows_code.py:43-115 | the line-by-line preprocessor leaves the active text of a well-nested file |
| WinBlocks.RewriteMeaning | scripts/remove_windows_code.py:43-115 | rewriting a supported file keeps its active text for every assignment without Windows macros |
| WinRewrite.RemoveWindowsBlocks | scripts/remove_windows_code.py:43-115 | for any lines the index loop computes the output, and changes nothing exactly if no condition starts with a Windows macro; on a well-nested file the output is the rewritten structure, none is left exactly if none is in a kept part of a Windows block, and preprocessing a supported file is unchanged |
| WinRewrite.RemoveBlock | scripts/remove_windows_code.py:50-90 | the scan finds the matching #endif and keeps the right part |
| WinRewrite.SkipBranch | scripts/remove_windows_code.py:93-112 | a Windows #elif is skipped up to its next branch or #endif |
| WinRewrite.BlockFound | scripts/remove_windows_code.py:52-72 | the nesting counter finds the block's end, its bare #else and its last foreign #elif |
| WinRewrite.KeptBlock | scripts/remove_windows_code.py:72-90 | what is kept of a block is the rewritten node |
| WinRewrite.OutputMeaning | scripts/remove_windows_code.py:43-115 | the output of a supported file preprocesses to the same active lines |
| WinGone.FileGone | scripts/remove_windows_code.py:72-90 | no condition of the rewritten file starts with a Windows macro if and only if none does in the parts that are kept of Windows blocks |
| WinGone.NestedStays | scripts/remove_windows_code.py:72-76 | a Windows block in the #else of another is kept |
| WinGone.GoneUnchanged | scripts/remove_windows_code.py:43-115 | lines without Windows conditions are left as they are, well nested or not |
| WinShapes.HeadExact | scripts/remove_windows_code.py:48-90 | a Windows block without other branches may be removed whatever it contains if and only if its condition cannot hold without Windows macros |
| WinShapes.OrLosesOurs | scripts/remove_windows_code.py:48-49 | a Windows macro or-ed with another macro is matched and can hold without Windows macros; and-ed it cannot |
| WinBlocks.HeadOnlyWindows | scripts/remove_windows_code.py:48-49 | a condition that starts with a Windows macro and has no or-operator outside parentheses cannot hold without Windows macros |
| WinShapes.ShapesExact | scripts/remove_windows_code.py:49-90 | a Windows block with given kinds of branches (foreign, for Windows only, or mentioning Windows but able to hold without) survives for all contents and macros if and only if, branches for Windows only aside, it has at most a bare #else, or starts with a foreign branch and has no other foreign one and no bare #else |
| WinShapes.ElifHeadExact | scripts/remove_windows_code.py:93-112 | an #elif branch that starts with a Windows macro may be removed from a block that does not, whatever the two contain, if and only if its condition cannot hold without Windows macros |
| Throws.CheckThrowsClause | src/body.cpp:3262-3276 | the list ends with exactly the first entries of the topmost checked classes; of the other checked entries each is reported once, as a duplicate exactly if it repeats an earlier class with no superclass before it, else as redundant |
| Throws.MaximalMeaning | src/body.cpp:3199-3257 | the kept classes are unrelated, and each checked class named has one of them above it |
| Throws.ThrowsChecker.Scan | src/body.cpp:3212-3255 | swap-with-last removal during the scan drops exactly the entries below the new one, which are reported redundant; the new one is reported a duplicate or redundant as what it met requires |
| Throws.ThrowsChecker.CheckThrow | src/body.cpp:3180-3257 | one entry keeps the list, the duplicate reports, the redundant reports and the others exact |
| Throws.KeptAbove | src/body.cpp:3199-3257 | every checked entry has a kept one at or above its class |
| MultiCatch.ParameterType | src/body.cpp:2389-2428 | the fold yields the least common superclass of the alternatives |
| MultiCatch.MeetingPoint | src/body.cpp:2413-2424 | the walk up stops at the least common superclass of two classes and never runs off the top |
| MultiCatch.LeastUnique | src/body.cpp:2389-2428 | the result does not depend on order or repetition |
| IterableTypes.ElementErasure | src/body.cpp:657-828 | a type that is found has the erasure of Iterable's argument, fully substituted along a path of supertypes, if and only if that argument is no `? super` of something with an erasure of its own; when a type is found is IterableTypes.FindExact |
| IterableTypes.FindExact | src/body.cpp:715-763 | when types have their arguments, a type is found if and only if a path of supertypes leads to Iterable, but for `Iterable<?>` itself |
| IterableTypes.SearchComplete | src/body.cpp:735-760 | a path of supertypes to Iterable on which every type has its arguments is enough for the search to succeed, however long |
| IterableTypes.SuperOfCollection | src/body.cpp:782-815 | the element type of a `Collection<? super Integer>` is taken to be Integer, and the full argument erases to Object |
| IterableTypes.CoreErasure | src/body.cpp:771-828 | what the search has found erases as the fully substituted argument without its wildcards |
| IterableTypes.SearchFinds | src/body.cpp:715-763 | the search that finds a type has followed a path of supertypes to Iterable, in any acyclic hierarchy, and what it found stands for Iterable's argument along it |
| IterableTypes.StepStandsFor | src/body.cpp:771-828 | substituting at the top level only keeps what the erasure depends on |
| IterableTypes.DirectExact | src/body.cpp:666-684 | for Iterable itself the result is right exactly if the argument is no `? super` of a type with an erasure |

## Left out

- Try-with-resources: the slots of its bodies start from a count read before the resource slots are reserved.
- String switches in the slot theorem: their one helper slot can be taken for the helpers of a try statement.
- Multi-catch clauses in the exception theorems: the code treats them as catching the computed superclass; only that superclass is modelled.
- Precise rethrow: a throw uses the static type of its expression.
- Exceptions of anonymous classes' initializers, which are added to a list instead of being reported.
- Expressions: only declared exceptions and constant conditions of them are modelled. Assert, local classes, this and super calls, and expression typing are not.
- Warnings, such as fall-through and empty blocks.
- Slots of methods in which a clause is rejected: all clauses are taken to be processed, as in accepted methods.
- Semantic.Analyzer: the blocks of try, catch, finally and synchronized are opened by the common block method; whether a finally clause is abrupt is noted when its try statement is pushed; clause blocks get their reachable flag when their turn comes, not in the loop before.
- CaseSort.Switch: the default label's slot is a field of its own, and case elements are values in the array, not objects behind pointers.
- StoragePool::Reset, and 32-bit wrap of segment counts.
- SymbolArray.VariableSymbolArray.AllocateMoreSpace: is proved for base vectors within the asserted bound.
- SymbolArray.VariableSymbolArray.GrowBase: takes the space of the longer base vector from the pool but keeps its pointers as a value, so the copy of the base through pool memory is not modelled.
- Destruction of registered symbols and types with a pool.
- Recognition of preprocessor lines in text: lines come classified, and `#if` without a space after it is not considered.
- The removal of WIN32_FIND_DATA lines, file walking and output.
- Writing of the generated source files, and the classification of characters by the Java library.
- Enclosing types of inner generic classes, and the foreach heuristics beside the Iterable search.
- Array element types have no erasure in this search, as in the code, where it is a placeholder.
