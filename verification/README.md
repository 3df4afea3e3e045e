# RoleN core: a verified model

RoleN runs several LLM agents over one or more workspaces. What keeps that safe is a small
concurrent core: one write queue per workspace, a scheduler over task graphs, patches and
diffs, the agent loop, provider permits, rule routing, the overlay harvest and the search for
JSON in model output. This project models that core in Dafny and proves what it guarantees,
and, where the code is weaker than its comments, exactly when it guarantees it.

## How it is organised

| files | what they model |
|---|---|
| `Text.dfy` | `split`, `lines`, `join`, decimal numbers, delimiters |
| `LineDiff.dfy`, `Patch.dfy`, `DiffFormat.dfy`, `UnifiedDiff.dfy` | `simple_diff`; `apply_patch` with `parse_hunks` and `locate`; what the text of a diff says; writing a diff and applying it |
| `Tickets.dfy`, `TicketEffects.dfy` | `apply_ticket` in one go and the paths it can touch; when each kind of ticket is applied and what it leaves |
| `QueueSpec.dfy` | the dispatcher and its applier threads as a step system: one step for each message, and three for each ticket (version check, temp write, rename), each with its I/O failures |
| `QueueOrder.dfy`, `QueueWaiters.dfy`, `QueueFiles.dfy`, `QueueTheorems.dfy`, `QueueReads.dfy`, `QueueLimits.dfy`, `QueuePairs.dfy` | the proofs over all runs of that system |
| `WriteQueue.dfy` | the queue's mutable state, each message handler proved to be one step |
| `Backpressure.dfy` | `submit` and `wait` as steps of several submitters |
| `Dag.dfy` | `validate_dag`, `blocked_by_question` |
| `SchedulerSpec.dfy`, `SchedulerSafety.dfy`, `SchedulerRuns.dfy`, `SchedulerTicks.dfy`, `SchedulerResults.dfy`, `Scheduler.dfy` | the tick loop of `run_projects` as functions, its invariant, its runs, why a task moves and who gets a slot, the fate of results, and the loop in place |
| `AgentSpec.dfy`, `AgentRuns.dfy`, `AgentAnswers.dfy`, `Agent.dfy` | the agent loop and its compaction as functions, their runs, what becomes of each answer and how a session ends, and the loop in place |
| `Permits.dfy` | `acquire_with_cap` and the permit's drop, as steps and in place |
| `JsonScan.dfy`, `JsonExtract.dfy` | the balanced scan over the JSON texts of RFC 8259; `extract_json`, `salvage_tool_calls` |
| `Rules.dfy` | rule order, conditions, fallback chain, `decide`, `migrate` |
| `HarvestSpec.dfy`, `HarvestTheorems.dfy`, `Harvest.dfy` | the overlay harvest as functions, what it leaves, and the walkers in place |

Code that updates state in place is modelled by classes and loops whose `ensures` equate the
new state with a specification function of the old one; what the program promises is proved
about those functions, over every run.

`dafny verify dfyconfig.toml` checks the whole project.

## Where the code differs from its comments

* `locate` promises "no match" for a hunk longer than the file; it indexes out of range
  (`Patch.LocateCrashesExactly`). A panicking applier never reports `Done`, so its path is
  wedged for good (`QueueLimits.WedgedForever`); patching an empty or missing file with a hunk
  that expects content is enough (`QueueLimits.PatchOfEmptyFilePanics`); `QueueLimits.PanicsExactly`
  says which patches do it.
* `parse_hunks` drops removed lines that start with `--` and added lines that start with `++`,
  because they look like file headers. A written diff parses back exactly when it has no such
  line (`UnifiedDiff.ParseRoundTrip`).
* A hunk without old lines goes in before its declared line, where the POSIX `diff` utility
  ("Diff -u or -U Output Format") means after it (`Patch.PosixInsertionPoint`).
* A patch that deletes every line leaves a single line feed (`UnifiedDiff.PatchTextRoundTrip`).
* The queue orders tickets by the spelling of their path. Two full writes under different
  spellings are safe exactly when neither their files nor their temp files coincide
  (`QueuePairs.ConcurrencySafeExactly`); `a.rs` and `a.toml` share a temp file.
* When the dispatcher stops, the waiters it still owes a verdict hear a rejection, also those
  whose ticket is applied all the same: exactly the applied ones whose `Done` it never took in
  (`QueueWaiters.ToldWrongExactly`, `QueueWaiters.ShutdownTellsWrong`).
* A file that cannot be read at the version check counts as absent, so a create overwrites it
  (`Tickets.UnreadableIsOverwritten`).
* Patching drops the carriage returns of the whole file (`UnifiedDiff.CrlfBecomesLf`).
* `depth` can exceed the cap by one less than the number of submitters
  (`Backpressure.DepthsExactly`).
* When the scheduler takes in several finished tasks of a project in one tick, it throws away
  all results but one (`SchedulerResults.DoneExactly` says which tasks still end as done).
* Compaction underflows on a history of five to seven messages. A session that starts anew can
  hit this only at its third step (`AgentRuns.CrashOnlyInThirdStep`); `AgentRuns.CrashesExactly`
  covers resumed ones too.
* The staging walk of the harvest does not pass over the skipped directories, and file contents
  go through a lossy text conversion (`HarvestTheorems.SkippedUntouchedExactly`,
  `HarvestTheorems.SynchronisedExactly`).
* The harvest's writes carry the hash of the version they replace, its removals none: a removal goes
  through whatever the file holds by then (`HarvestTheorems.GuardedExactly`).
* A rule's `min_quota_pct` of None or 0 is documented as "only skip when fully exhausted"; the
  code then never skips on quota, and `Rules.Serves` follows the code.

## Model

| member | source | states |
|---|---|---|
| LineDiff.FillTable | rolen-core/src/patch.rs:150-160 | the table filled from the far corner holds, in every cell, the length of a longest common subsequence of the two suffixes |
| LineDiff.LcsIsLongest | rolen-core/src/patch.rs:150-160 | the recursive length is attained by some common subsequence and exceeded by none |
| LineDiff.DiffLines | rolen-core/src/patch.rs:161-182 | the walk over the table prints the reference script line by line |
| LineDiff.ScriptIsMinimal | rolen-core/src/patch.rs:144-183 | no edit script between the two texts has fewer removed and added lines |
| LineDiff.ScriptRemovesFirst | rolen-core/src/patch.rs:161-182 | in every stretch of changed lines the preview shows all removals before the additions |
| LineDiff.SimpleDiff | rolen-core/src/patch.rs:147-183 | read back, the preview rebuilds both texts and is as short as any script that does |
| LineDiff.ReadRendered | rolen-core/src/patch.rs:164-181 | the printed marks lose nothing: reading the preview gives the script |
| Text.LinesExactly | rolen-core/src/patch.rs:147-149 | lines lose the carriage return before their line feed, a last line without one keeps it |
| Patch.FindHunk | rolen-core/src/patch.rs:115-142 | the search loop finds the declared position if it matches, else the only match, else nothing, and runs out of range on a hunk longer than the file |
| Patch.LocateCrashesExactly | rolen-core/src/patch.rs:124-142 | out of range exactly when the non-empty old side is longer than the text; no position exactly when it fits, does not match where declared and matches nowhere or ambiguously; a position found is a match |
| Patch.LocatesExactly | rolen-core/src/patch.rs:115-142 | a hunk goes to its declared line if it matches there, and else only where it alone matches; one without old lines to its declared line, or to the end if that is beyond it |
| Patch.PosixInsertionPoint | rolen-core/src/patch.rs:117-121 | a pure addition lands where POSIX says only for declared line 0 |
| Patch.SortIsBottomUp | rolen-core/src/patch.rs:28-30 | sorting hunks with distinct starts gives bottom-up order whatever order the diff lists them in |
| Patch.SortIsStable | rolen-core/src/patch.rs:28-30 | the sort puts later starts first, loses no hunk and keeps hunks with one start in the order listed |
| Patch.SpliceAll | rolen-core/src/patch.rs:31-34 | the in-place splicing loop is the stage-by-stage application |
| Patch.MergeCommutes | rolen-core/src/patch.rs:3-9 | if at every stage each old side occurs exactly once, with and without added surroundings, patching commutes with adding lines above and below |
| Patch.ParseHunks | rolen-core/src/patch.rs:61-110 | the parsing loop is the line-by-line parse, with its header errors and its skipped lines |
| DiffFormat.ParseExactly | rolen-core/src/patch.rs:61-110 | a diff reads as certain hunks exactly when, file headers left out, it is a series of sections, each a hunk header and a body, where context (blank lines included) and removed lines are expected, context and added lines are left, and any other line counts for nothing |
| DiffFormat.HeaderReads | rolen-core/src/patch.rs:71-76 | a hunk header gives the start of its old range, with or without a length and whatever follows, unless it does not fit 64 bits |
| Patch.RunPatch | rolen-core/src/patch.rs:12-41 | parse, strip, sort, splice and join make up the specified patch application |
| DiffFormat.PatchYieldsExactly | rolen-core/src/patch.rs:12-41 | a patch yields a text exactly when its diff is such a series, not empty, whose hunks, sorted, can all be placed one after another, and the text is what then stands there |
| Patch.LengthAfter | rolen-core/src/patch.rs:28-34 | a patched text is longer than the old one by exactly the lines the hunks add less those they take away |
| Patch.PatchCrashesExactly | rolen-core/src/patch.rs:28-34 | a patch panics exactly when some hunk, all those sorted before it located, is longer than the text has become by then |
| UnifiedDiff.HunksRewrite | rolen-core/src/patch.rs:28-34 | hunks cut from a script, sorted, located and spliced one after another, replace all their windows of the old text at once |
| UnifiedDiff.AnyScriptPatches | rolen-core/src/patch.rs:28-34 | hunks cut from any edit script from one text to another, each with lines to find, patch the one into the other in whatever order they are listed |
| UnifiedDiff.ParseRoundTrip | rolen-core/src/patch.rs:61-110 | a written diff parses back to its hunks exactly when no body line looks like a file header |
| UnifiedDiff.PatchRoundTrip | rolen-core/src/patch.rs:12-41 | a diff written from a file's lines, carriage returns stripped, to the lines of its successor patches the file into the successor, which ends in a line feed if the file did or was empty |
| UnifiedDiff.PatchMakesSuccessor | rolen-core/src/patch.rs:12-41 | a diff written from any cut of an edit script turns a file, empty or without a final line feed included, into exactly its successor, if and only if that is not empty |
| UnifiedDiff.PatchTextRoundTrip | rolen-core/src/patch.rs:12-41 | between newline-terminated texts, carriage returns dropped from the old one, the round trip is exact if and only if the new text is not empty |
| UnifiedDiff.CrlfBecomesLf | rolen-core/src/patch.rs:18-26 | any diff does to a file with CR LF line ends what it does to the same file with LF |
| Tickets.TouchesFootprintOnly | rolen-orchestrator/src/queue.rs:261-325 | a ticket changes nothing but its resolved path, its temp file and its rename target |
| Tickets.DependsOnFootprintOnly | rolen-orchestrator/src/queue.rs:261-325 | its verdict and its changes depend on those paths only |
| Tickets.RejectedChangesNothing | rolen-orchestrator/src/queue.rs:283-324 | a rejected ticket, a failed patch included, changes no content but, after an I/O failure, its own temp file |
| Tickets.UnreadableIsOverwritten | rolen-orchestrator/src/queue.rs:267-283 | a read failure at the version check turns a create that would be rejected into one that overwrites |
| TicketEffects.FullWriteExactly | rolen-orchestrator/src/queue.rs:267-292 | a create or replace is applied exactly when it finds the version it names and nothing fails; its path then holds the payload, its temp file is gone, all else is as it was |
| TicketEffects.PatchExactly | rolen-orchestrator/src/queue.rs:305-320 | a patch ticket is applied exactly when its payload patches the text found and nothing fails; its path then holds the patched text |
| TicketEffects.WrittenDiffIsApplied | rolen-orchestrator/src/queue.rs:305-320 | a patch ticket that carries a diff written from an edit script between two texts is applied to the one and leaves the other |
| TicketEffects.DeleteExactly | rolen-orchestrator/src/queue.rs:293-299 | a delete is applied exactly when it finds its version and removing a file that is there does not fail; that file alone is gone |
| TicketEffects.RenameExactly | rolen-orchestrator/src/queue.rs:300-303 | a rename is applied exactly when it finds its version, its target resolves, its source is there and nothing fails; the target holds what the source held |
| TicketEffects.UnresolvedIsRejected | rolen-orchestrator/src/queue.rs:262-265 | a ticket whose path leads out of the workspace is rejected and touches nothing |
| QueueOrder.EveryRunKeepsOrder | rolen-orchestrator/src/queue.rs:167-219 | in every reachable state each path's applied tickets, then the one in flight, then its backlog are its tickets in arrival order; backlog and pending reads belong to paths in flight; every read is answered or waits under its own path |
| QueueWaiters.EveryRunKeepsWaiters | rolen-orchestrator/src/queue.rs:167-219 | in every reachable state each path completes its tickets in order; a waiter whose Done came in heard its ticket's outcome, any other that heard something heard a rejection; deferred reads have no answer yet |
| QueueWaiters.NobodyIsForgotten | rolen-orchestrator/src/queue.rs:123-128 | a ticket whose waiter has heard nothing is still on its way; once the dispatcher has stopped, only an applier at work keeps a waiter waiting, and every reader has an answer |
| QueueWaiters.AppliedMeansApplied | rolen-orchestrator/src/queue.rs:191-197 | a waiter told Applied had its ticket applied, also across a shutdown |
| QueueWaiters.ToldWrongExactly | rolen-orchestrator/src/queue.rs:216-248 | over every run, a waiter is told something else than its ticket's outcome exactly when the ticket was applied and the dispatcher stopped before its Done came in |
| QueueWaiters.CompletedExactly | rolen-orchestrator/src/queue.rs:191-197 | the tickets recorded as completed are exactly those whose Done some event of the run took in |
| QueueWaiters.ShutdownTellsWrong | rolen-orchestrator/src/queue.rs:240-248 | a concrete run: the file is written, its waiter is told Rejected, and nothing on the path can follow |
| QueueOrder.SettledIsLogged | rolen-orchestrator/src/queue.rs:191-214 | once nothing is in progress each path's tickets have been logged once each, in arrival order |
| QueueOrder.DrainedIsComplete | rolen-orchestrator/src/queue.rs:191-214 | once a path is no longer in flight, its tickets are logged in order and its reads answered, whatever has become of other paths |
| QueueFiles.EveryRunReplays | rolen-orchestrator/src/queue.rs:227-325 | however appliers of independent paths interleave and fail, the workspace is the log replayed one whole ticket at a time, but for temp files in use, and every verdict is the replay's |
| QueueTheorems.ReplayProjects | rolen-orchestrator/src/queue.rs:261-325 | on its own paths a key's tickets act as if no other tickets existed |
| QueueTheorems.ReorderingSameFiles | rolen-orchestrator/src/queue.rs:167-248 | logs that agree path by path leave the same workspace |
| QueueTheorems.ReorderingSameVerdicts | rolen-orchestrator/src/queue.rs:167-248 | and give every ticket the same verdict |
| QueueTheorems.QuietIsSequential | rolen-orchestrator/src/queue.rs:167-248 | whenever no applier is at work, also after a shutdown with tickets never dispatched, workspace and outcomes are those of applying the dispatched tickets one by one in arrival order, and what each waiter heard follows from them and from the shutdown |
| QueueTheorems.SettledIsSequential | rolen-orchestrator/src/queue.rs:167-248 | in a settled run no ticket is missing from that reading, and while the dispatcher runs every verdict told is the one in it |
| QueueReads.EveryReadSound | rolen-orchestrator/src/queue.rs:184-214 | every answer ever given came from a state where its path's tickets were through |
| QueueReads.ReadYourWrites | rolen-orchestrator/src/queue.rs:184-225 | a read returns what all its path's tickets up to some moment not before the request make of the initial workspace; only a shutdown leaves it without content |
| QueueReads.StepAnswers | rolen-orchestrator/src/queue.rs:184-225 | an answer once given stays; a new one is taken from the file of a path not in flight, or comes of a shutdown |
| QueueReads.LastChangeIsRead | rolen-orchestrator/src/queue.rs:184-225 | over every run, an answered read returns what the last ticket applied to its path before made of it, whatever was rejected since: a full write its payload, a patch the patched text, a delete or a rename nothing |
| QueueReads.ProjectedVerdicts | rolen-orchestrator/src/queue.rs:261-325 | a path's tickets have, among themselves, the verdicts they have in the whole run |
| QueueReads.NoLostUpdate | rolen-orchestrator/src/queue.rs:267-281 | an applied ticket with a base hash was applied on exactly the version its path's earlier tickets left |
| QueueLimits.WorkIsBounded | rolen-orchestrator/src/queue.rs:190-248 | a path's appliers and completions take at most four steps per ticket of that path |
| QueueLimits.NeverStuck | rolen-orchestrator/src/queue.rs:190-248 | a path in flight whose applier has not panicked always has a next step until shutdown |
| QueueLimits.PanicsExactly | rolen-orchestrator/src/queue.rs:305-320 | the applier panics exactly on a patch one of whose hunks, those before it applied, is longer than the text, where a missing or unreadable file is an empty text |
| QueueLimits.PatchOfEmptyFilePanics | rolen-orchestrator/src/queue.rs:305-320 | in particular a patch with lines to find panics on an empty or missing file |
| QueueLimits.WedgedForever | rolen-orchestrator/src/queue.rs:234-248 | after a panic no later ticket of the path is applied and no later read of it gets content, in any run |
| QueueLimits.StoppedTellsOnlyRejections | rolen-orchestrator/src/queue.rs:216-248 | in every run that goes on after a shutdown, waiters who had not heard hear nothing but rejections, undispatched tickets stay so, and every waiter whose applier is through has heard |
| QueuePairs.AliasGoesWrong | rolen-orchestrator/src/queue.rs:175-183 | two spellings of one file: a run whose contents or verdicts no one-by-one order explains |
| QueuePairs.SharedTempGoesWrong | rolen-orchestrator/src/queue.rs:289-291 | two files with one temp name: a run reports Applied for a file that holds the other ticket's text |
| QueuePairs.PathIsTempGoesWrong | rolen-orchestrator/src/queue.rs:289-291 | a write to another ticket's temp name: overtaken, its file stays where one by one it would be moved away |
| QueuePairs.TempIsPathGoesWrong | rolen-orchestrator/src/queue.rs:289-291 | the same the other way round |
| QueuePairs.ConcurrencySafeExactly | rolen-orchestrator/src/queue.rs:267-292 | two creates or replaces under different keys that both pass their version checks on the workspace are explained one by one in every run exactly when their footprints are disjoint, whatever their bases and contents |
| WriteQueue.Queue.ReceiveNew | rolen-orchestrator/src/queue.rs:175-183 | the New handler on the mutable maps is one submission step and keeps the invariant |
| WriteQueue.Queue.ReceiveRead | rolen-orchestrator/src/queue.rs:184-190 | the Read handler is one read step: deferred behind its path's writes or answered at once |
| WriteQueue.Queue.ReceiveDone | rolen-orchestrator/src/queue.rs:191-215 | the Done handler is one completion step: verdict sent, next ticket dispatched or the path idled and its readers answered |
| WriteQueue.Queue.ReceiveShutdown | rolen-orchestrator/src/queue.rs:216-219 | the Shutdown handler stops the dispatcher; the waiters of its backlog and of unread Done messages hear a rejection, its deferred readers an error |
| WriteQueue.Queue.FulfillRead | rolen-orchestrator/src/queue.rs:221-225 | a read takes the file at the path's own place as it is now |
| WriteQueue.Queue.GoIdle | rolen-orchestrator/src/queue.rs:207-214 | an idled path leaves the in-flight set and all its deferred readers are answered |
| WriteQueue.Queue.Decide | rolen-orchestrator/src/queue.rs:267-321 | the version test and the choice of what to write, remove or move, panics of a patch included |
| WriteQueue.Queue.ApplierStep | rolen-orchestrator/src/queue.rs:261-325 | each access of an applier thread to the file system is one step of the system, for every failure of that access, the check's read included |
| Backpressure.DepthsExactly | rolen-orchestrator/src/queue.rs:65-83 | `n` submitters can reach exactly the depths up to cap - 1 + n |
| Backpressure.CapHoldsExactlyAlone | rolen-orchestrator/src/queue.rs:39-40 | the documented limit holds in every reachable state if and only if there is a single submitter |
| Backpressure.ZeroIsUnlimited | rolen-orchestrator/src/queue.rs:49 | cap 0 puts no bound on the depth |
| Dag.ValidateDag | rolen-orchestrator/src/scheduler.rs:599-638 | accepts exactly graphs with unique ids, known dependencies and no cycle, each error exactly in its case; a reported cycle goes through the reported node; acceptance yields a topological order |
| Dag.Colouring.Visit | rolen-orchestrator/src/scheduler.rs:616-634 | the coloured search keeps the grey nodes a path and the black ones ranked; it fails only on a node that reaches itself |
| Dag.OrderedIsAcyclic | rolen-orchestrator/src/scheduler.rs:616-634 | a topological order excludes every cycle |
| Dag.BlockedByQuestion | rolen-orchestrator/src/scheduler.rs:573-597 | true exactly when some task reachable over one or more dependencies has a pending question, on every spec, cyclic or not |
| Dag.Walk | rolen-orchestrator/src/scheduler.rs:577-595 | pruning by the shared set loses nothing: what a walk adds is closed under dependencies and free of questions |
| SchedulerSpec.TaskKeyInjective | rolen-orchestrator/src/scheduler.rs:551-553 | global task keys of different tasks differ, whatever characters the ids hold |
| SchedulerSpec.ClaimKeyInjective | rolen-orchestrator/src/scheduler.rs:555-557 | within a directory every file has its own claim key, and so across directories whose names hold no colon |
| SchedulerSafety.StartStep | rolen-orchestrator/src/scheduler.rs:376-436 | starting a ready task with free claims and a free slot keeps the whole invariant and leaves one less to do |
| SchedulerSafety.FailStep | rolen-orchestrator/src/scheduler.rs:380-395 | failing a task for its dependency keeps it and leaves two less |
| SchedulerSafety.HarvestStep | rolen-orchestrator/src/scheduler.rs:263-325 | taking in a finished task keeps it, frees one slot and leaves one less; earlier verdicts stand |
| SchedulerSafety.ScanProjectsKeeps | rolen-orchestrator/src/scheduler.rs:355-516 | a scan keeps the invariant and the slot budget, and either changes nothing or leaves less to do |
| SchedulerRuns.HandInKeeps | rolen-orchestrator/src/scheduler.rs:512-513 | a worker's hand-in or mark, whenever it comes, keeps the invariant, every verdict and the work left |
| SchedulerRuns.EveryRunIsSafe | rolen-orchestrator/src/scheduler.rs:260-435 | in every reachable state running tasks stay within the cap, no two tasks running in one directory claim a common file, a key is claimed exactly when it is that of a file some running task claims, and a started task has all direct and transitive dependencies done |
| SchedulerRuns.StallsExactly | rolen-orchestrator/src/scheduler.rs:351-518 | with nothing running a scan changes nothing exactly when every pending task waits for a dependency or an answer |
| SchedulerRuns.SomeoneMoves | rolen-orchestrator/src/scheduler.rs:372-440 | with a valid graph, no questions and nothing running, some pending task does not wait |
| SchedulerRuns.NoIdleSlot | rolen-orchestrator/src/scheduler.rs:351-518 | a scan that ends with a slot to spare leaves no ready task but behind a claim |
| SchedulerRuns.UsefulTickMoves | rolen-orchestrator/src/scheduler.rs:254-521 | with no questions, a tick that takes in a worker or finds none running leaves strictly less to do |
| SchedulerRuns.BatchEnds | rolen-orchestrator/src/scheduler.rs:254-521 | two such ticks for each task end the batch, whatever happens in between, with every task reported exactly once, as done or as failed |
| SchedulerRuns.BatchExits | rolen-orchestrator/src/scheduler.rs:329-337 | and whatever tick comes next finds all settled after its harvest, which is the exit of the loop |
| SchedulerTicks.EveryRunCanEnd | rolen-orchestrator/src/scheduler.rs:254-521 | no run leads into a dead end: from every reachable state some further run settles the whole batch |
| SchedulerTicks.EachMoveHasItsReason | rolen-orchestrator/src/scheduler.rs:376-436 | a tick leaves a task it does not take in running if it ran, and changes a pending one only to failed behind a failed dependency or to running with all dependencies done and no question among those it reaches |
| SchedulerTicks.TickFillsSlots | rolen-orchestrator/src/scheduler.rs:340-518 | after every tick all is settled, or every slot is taken, or every ready task has a file it must wait for |
| SchedulerTicks.FirstIsServed | rolen-orchestrator/src/scheduler.rs:352-436 | the project that a scan with a free slot visits first gets a task started if one of its tasks is ready and its files are free |
| SchedulerTicks.TurnComes | rolen-orchestrator/src/scheduler.rs:353-518 | and every project is visited first once in every round of scans |
| SchedulerResults.OnlyTheFirstIsDone | rolen-orchestrator/src/scheduler.rs:263-325 | of a project's tasks taken in by one tick only the first can be done |
| SchedulerResults.ResultAfterRun | rolen-orchestrator/src/scheduler.rs:266-271 | a handed-in result is still there exactly when no tick has taken in another task of its project since |
| SchedulerResults.AlwaysOwned | rolen-orchestrator/src/scheduler.rs:266-271 | in every run the results kept are those of tasks that have handed one in |
| SchedulerResults.DoneExactly | rolen-orchestrator/src/scheduler.rs:260-325 | a task ends done exactly when its agent succeeded, every file it claims exists in its directory, its result was not thrown away and it is taken in first; otherwise failed |
| Scheduler.Batch.Harvest | rolen-orchestrator/src/scheduler.rs:260-327 | the in-place harvest over all projects is the specified one |
| Scheduler.Batch.TakeResult | rolen-orchestrator/src/scheduler.rs:266-271 | draining finds the task's first result and throws the others away |
| Scheduler.Batch.HarvestTask | rolen-orchestrator/src/scheduler.rs:263-325 | one finished task: claims released, result judged, verdict and report recorded, as specified |
| Scheduler.Batch.ConsiderTask | rolen-orchestrator/src/scheduler.rs:376-440 | the scan's treatment of one task, with its failure, waiting, blocking and claim branches, is the specified one |
| Scheduler.Batch.StartTask | rolen-orchestrator/src/scheduler.rs:431-436 | starting enters every claim under the task's key and marks it running |
| Scheduler.Batch.VisitProjects | rolen-orchestrator/src/scheduler.rs:352-518 | the rotated loop over the projects, with its early exits, is the specified scan |
| Scheduler.Batch.Tick | rolen-orchestrator/src/scheduler.rs:254-521 | one turn of the loop is one tick of the specification; it exits exactly when all is settled after the harvest, and moves the rotation on exactly when there was a slot to fill |
| AgentRuns.CallsAreBounded | rolen-runtime/src/agent.rs:331-457 | whatever fails when, a session makes at most 4 * (max_steps + 2) tool-chat calls; the summarising calls of compaction are not among them |
| AgentRuns.BoundIsTight | rolen-runtime/src/agent.rs:331-457 | from any history, fresh or resumed, and for every number of steps, some pattern of failures makes exactly that many, unless the history is so large and short that compaction ends every such session first: if and only if |
| AgentRuns.CompactExactly | rolen-runtime/src/agent.rs:757-796 | compaction fails exactly on a large history of five to seven messages, cuts exactly a large one of nine or more, to the first two and last six messages around one note made of those between, and changes nothing else |
| AgentRuns.HistoryKeepsShape | rolen-runtime/src/agent.rs:309-320 | over any chain of sessions resumed from snapshots the history is system, task, perhaps a note, then pairs, and prompt and task are never lost |
| AgentRuns.TurnKeepsShape | rolen-runtime/src/agent.rs:477-551 | tool rounds, nudges and compactions each keep that shape |
| AgentRuns.ResultsFollowTheirCalls | rolen-runtime/src/agent.rs:525-550 | every ToolResults directly follows the Assistant message whose call ids it answers in order |
| AgentRuns.CrashOnlyInThirdStep | rolen-runtime/src/agent.rs:761-766 | a session that starts anew crashes in compaction at its third step or never |
| AgentRuns.CrashesExactly | rolen-runtime/src/agent.rs:757-766 | a session started or resumed from any history crashes exactly when after some number of turns it has 24000 estimated tokens in five to seven messages, a step left, and is not cancelled |
| AgentRuns.LongNeverCrashes | rolen-runtime/src/agent.rs:761-770 | one resumed with eight messages or more never does |
| AgentRuns.GivesUpAfterThreeNudges | rolen-runtime/src/agent.rs:483-518 | a session that ends well with an expected file missing was nudged exactly three times |
| AgentAnswers.AskExactly | rolen-runtime/src/agent.rs:384-457 | a model call meets four busy tries per provider before it moves on, only to where routing leads and never if the provider is pinned; it ends with the first reply that is not busy, or after the last try allowed |
| AgentAnswers.TalkExactly | rolen-runtime/src/agent.rs:384-550 | an answer with calls, written out or in its text, adds itself and one tool result for each call under its id; one without adds itself and a nudge naming the missing files in order while something is left to do and fewer than three nudges were given; else the session ends with its text |
| AgentAnswers.SessionEndsFor | rolen-runtime/src/agent.rs:331-551 | every session: the text it ends well with is that of the last answer, which asks for no tool, and either all it was asked for is there or this was the fourth such answer; step limit and cancellation end it exactly when they come; a pinned one never migrates |
| AgentAnswers.MissingPicks | rolen-runtime/src/agent.rs:486-491 | the files named in a nudge are exactly the expected ones that do not exist, in order |
| AgentAnswers.EstimateCounts | rolen-runtime/src/agent.rs:743-760 | the size limit of a history is 96000 characters of all that is written in it, with 32 more for each call and 16 for each result |
| Agent.AgentSession.MaybeCompact | rolen-runtime/src/agent.rs:757-796 | the in-place cutting of the history is the specified compaction |
| Agent.AgentSession.AskModel | rolen-runtime/src/agent.rs:384-457 | the retry and migration loop is the specified one |
| Agent.AgentSession.RunTools | rolen-runtime/src/agent.rs:530-550 | one result for each call, in order, under the call's id |
| Agent.AgentSession.Act | rolen-runtime/src/agent.rs:477-550 | a tool round, a nudge or the end, with what each adds to the history, as specified |
| Agent.AgentSession.TakeTurn | rolen-runtime/src/agent.rs:331-551 | one turn of the loop, with all its ways out, is one turn of the specification |
| Agent.AgentSession.Run | rolen-runtime/src/agent.rs:322-551 | the whole loop over mutable history and counters is the specified run, and the text it ends with is that of the last answer, which asks for no tool |
| Permits.EveryRunCountsPermits | rolen-runtime/src/limit.rs:45-83 | in every reachable state each counter is the number of live permits, within the cap; a release finds it above zero; a sleeping session means holders and notified sessions use up the cap |
| Permits.StepKeepsInvariant | rolen-runtime/src/limit.rs:45-83 | acquiring, rechecking, releasing and spurious wake-ups each keep that |
| Permits.NeverAllAsleep | rolen-runtime/src/agent.rs:421-425 | sessions of any providers are never all asleep at once |
| Permits.SleeperCanBeServed | rolen-runtime/src/limit.rs:65-83 | no wake-up is lost: from every such state releases and notifications alone can serve any given sleeper |
| Permits.Limiter.TryAcquire | rolen-runtime/src/limit.rs:73-82 | the critical section takes a permit or waits, as specified |
| Permits.Limiter.Drop | rolen-runtime/src/limit.rs:46-53 | the saturating decrement and the notification are the specified release |
| JsonScan.ScanStopsAtOwnBracket | rolen-providers/src/generate.rs:52-76 | started at the opening bracket of any array or object of RFC 8259, the scan stops exactly at its closing bracket, whatever its strings and the following text hold |
| JsonScan.StopsInside | rolen-providers/src/generate.rs:77-80 | where the scan stops there is a closing bracket inside the text, so the slice is never out of range |
| JsonExtract.BalancedFrom | rolen-providers/src/generate.rs:52-76 | the inner loop over depth, string and escape flags stops where the reference scan does |
| JsonExtract.ExtractJson | rolen-providers/src/generate.rs:47-92 | the value of the least start index whose balanced slice parses, or nothing if none does |
| JsonExtract.FindsEmbedded | rolen-providers/src/generate.rs:47-92 | a document in prose without its opening bracket before it is the one found, whatever follows |
| JsonExtract.SalvageToolCalls | rolen-runtime/src/agent.rs:648-729 | whole-text JSON first, then embedded objects from left to right, a balanced slice taken whole |
| JsonExtract.SalvagedIdsAreUnique | rolen-runtime/src/agent.rs:658-671 | salvaged calls name known tools only and no two share an id |
| JsonExtract.SalvagesEmbedded | rolen-runtime/src/agent.rs:648-729 | from objects in prose, any number of them, the salvage recovers exactly their calls from left to right, unless the whole text is itself JSON that holds calls, and then exactly those |
| Rules.ForRoleInOrder | rolen-core/src/rules.rs:55-59 | the role's rules come in descending priority, earlier rules first among equals |
| Rules.OverridePrecedesExactly | rolen-core/src/rules.rs:61-73 | an override comes before a global rule of its role exactly when its priority plus 1000 is at least the global one's |
| Rules.MeasuredExactly | rolen-core/src/rules.rs:218-261 | a condition on the time, a quota or a cost holds exactly when what is measured is on the right side of its value |
| Rules.OppositesExactly | rolen-core/src/rules.rs:218-261 | of a condition and its opposite exactly one holds if there is something to compare, and neither if the quota is unknown, the provider not registered or the value unreadable |
| Rules.NamedExactly | rolen-core/src/rules.rs:218-235 | an equality on task type, project or health compares with what the condition names, four spellings of health counting as healthy |
| Rules.CheckConditions | rolen-core/src/rules.rs:211-276 | passes exactly when all conditions hold, else names the first that does not |
| Rules.SplitEntryExactly | rolen-core/src/rules.rs:281-285 | a chain entry names the provider before its first slash and the model after it, trimmed; without a slash it is malformed |
| Rules.WalkChain | rolen-core/src/rules.rs:279-324 | takes the provider and model of the first usable entry and reports exactly the earlier ones, each with the first reason that applies; fails exactly when none is usable before one without a slash, and says which |
| Rules.Decide | rolen-core/src/rules.rs:161-209 | the first usable entry of the first working rule; fails exactly when the role is paused or no rule works, with a note for every rule that names its scope, its first failing condition or what its chain lacks |
| Rules.Migrate | rolen-runtime/src/agent.rs:125-141 | the route that the rules give with the failed provider marked unhealthy; never the failed one; it gives up only when there is no such route or its provider is not registered |
| Rules.NeverUnhealthy | rolen-core/src/rules.rs:291-294 | no decision takes a provider marked unhealthy |
| Rules.NeverOutOfPlace | rolen-core/src/rules.rs:181-190 | no route comes from a rule of another role or project |
| HarvestSpec.WalkFinds | rolen-cliadapters/src/overlay.rs:120-168 | a walk lists only files of the tree, and none below a skipped name if it prunes |
| HarvestSpec.WalkMeets | rolen-cliadapters/src/overlay.rs:120-168 | and it lists every one of them |
| HarvestTheorems.HarvestExactly | rolen-cliadapters/src/overlay.rs:55-113 | every ticket is applied, the reported paths are exactly the differing ones once each, every path holds what it should, nothing else on the disk changes |
| HarvestTheorems.GuardedExactly | rolen-cliadapters/src/overlay.rs:68-94 | a harvested write met by a changed workspace is applied exactly when the path still has the version the harvest saw, a removal whatever it holds |
| HarvestTheorems.SynchronisedExactly | rolen-cliadapters/src/overlay.rs:55-113 | base equals staging on all unskipped paths exactly when every differing staged file there survives the conversion to text |
| HarvestTheorems.SkippedUntouchedExactly | rolen-cliadapters/src/overlay.rs:120-144 | skipped paths keep their contents exactly when no staged file below a skipped name would write another |
| Harvest.Harvester.CollectWrites | rolen-cliadapters/src/overlay.rs:120-144 | the recursive walker pushes exactly the differing staged files, in listing order |
| Harvest.Harvester.CollectDeletes | rolen-cliadapters/src/overlay.rs:146-168 | the recursive walker pushes exactly the unskipped base files that are not staged |
| Harvest.Harvester.SubmitChange | rolen-cliadapters/src/overlay.rs:68-107 | one change becomes one ticket built from the base as it is now; verdict and path are counted |
| Harvest.Harvester.Submit | rolen-orchestrator/src/queue.rs:261-325 | a full write or a removal is applied as the queue applies it |
| Harvest.Harvester.Run | rolen-cliadapters/src/overlay.rs:55-113 | both walks and the submitting loop over the changing base are the specified harvest |

## Assumptions

* Files are a map from resolved path to content; a rename and a full write are atomic, a temp
  write may leave a partial file. `resolve_in`, `with_extension` and the content hash are
  arbitrary functions of their arguments. The sequential theorems about the queue take tickets
  of different keys to have disjoint footprints; `QueuePairs` shows that this cannot be dropped.
* `QueueReads.NoLostUpdate` identifies the version by its hash; that the hash is free of
  collisions is assumed only where it says so.
* The scheduler's workers, the model's replies, tools, routing outcomes, cancellation and the
  presence of files are arbitrary; a worker that never hands in leaves its task running.
* The harvest assumes that no two paths alias, that no path is another's temp file, that a path
  is not a file in one tree and a directory in the other, and that nobody else writes meanwhile.
* The step limit of a session is taken after its default (30 for 0) has been put in.

## Left out

- HTTP clients, OAuth, tunnels, shells, keychains, git, notifications, terminal and command-line front ends: foreign calls.
- The SQLite ledger, the ticket journal, transcripts and event reporting: best-effort writes that decide nothing.
- The real file system (symlinks, canonical paths, directory creation, partial renames) and reads of files that are not UTF-8.
- The text of prompts, nudges, notes and explanations; reasons are data.
- TOML, YAML and JSON decoding; `extract_json` and the salvage take any parser.
- Pausing a session: it changes no history; a snapshot is the history itself.
- The summarising call of compaction and its tokens: any text may become the note.
- Cancellation of a batch: the loop just stops between ticks, and safety holds there too.
- The ten-tick countdown before questions are read again: the questions of a tick are arbitrary.
- The per-project split of the queue cap, cost and percentage formulas: single-function arithmetic.
- Wrap-around of counters, priorities near the limits of 32 bits, and tables too long for 32-bit cells.
- Submissions and reads that reach a stopped dispatcher: their channel is closed, and they hear a rejection or an error; the model has no such events.
- A ticket handle dropped without waiting, which leaves `depth` counted up for good.
- SchedulerRuns.BatchEnds: counts ticks that take in a worker or find none running; that such ticks come is up to the workers.
- Scheduler.Batch.Tick: one tick sees one set of existing files; files that appear in the middle of a tick are seen in the next.
- Permits.EveryRunCountsPermits: one fixed non-zero cap; cap 0 counts no permits, and a cap changed between sessions is not modelled.
- JsonScan.ScanStopsAtOwnBracket: scalars are any runs of the characters of numbers and names, a superset of RFC 8259.
- Harvest.Harvester.Submit: no I/O failure and no other writer, where the queue would reject.
- Rules.CheckConditions: numbers are reals; rounding of floating point is not modelled.
