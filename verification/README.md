# A verified model of Taskdeck's state machines

Taskdeck is a per-user daemon that starts and watches development tasks, shows
their logs and metrics, and can be joined with other nodes into a leader and
workers. Between its I/O layers it keeps several small state machines whose
correctness spans functions, locks and processes. This project models them in
Dafny and proves what they promise.

* **Logs** (`LogBuffer`, `LogClient`, `LogMirror`, `LogCompleteness`). A bounded buffer with sequence
  numbers and generations is mirrored by a terminal client that fetches only what
  is new. The main result covers every interleaving of pushes, clears, polls,
  selections and merges, and says exactly which lines the client can lack.
* **Graphs and process trees** (`WorkflowGraph`, `WorkflowGroup`, `ProcessTree`). An
  iterative three-colour search decides acyclicity; a stack walk without a visited
  set sums up a process tree; a fixpoint computes the same set of pids.
* **Configuration** (`ConfigYaml`, `ConfigMerge`, `ConfigSession`, `ConfigWitness`). Imported VS Code
  tasks are overlaid by a YAML file that is written as a difference and read as a
  patch. Writing and loading undo each other, and the exceptions are stated exactly.
* **Runs** (`TaskRuntime`, `SessionRuntime`, `RunTransitions`, `RunCollectors`,
  `RunAgreement`, `RunSampler`, `RunEnding`, `TaskRuns`, `SchedulerWindow`). A task's process state is sampled now and then; the
  stream of run boundaries rebuilt from the samples is well bracketed, the stored
  rows are unique although three writers race, and the cron scheduler looks at every
  second once.
* **Audit** (`Ranking`, `AuditStore`, `AuditReplication`, `AuditPayload`,
  `JsonText`, `LikePattern`). Retention, replication over a lossy channel, redaction, the
  text that payloads are stored as, and search.
* **Cluster and control** (`LeaderCluster`, `LeaderQueue`, `CommandCache`, `TaskMetrics`,
  `Scaling`). Connections, requests and send queues on the leader, deduplicated commands on the worker,
  metrics that never go stale, and the streak counters of the autoscaler.

`Prelude` and `Text` hold helpers.

## How the model is built

Code that changes state is a class or a method with the same fields, branches and
loops, proved equal to a function of its old state; the theorems are lemmas about
those functions. Concurrency is a state machine: each section that the program runs
under one lock is one event, and the theorems speak of every sequence of events that
is enabled. Clocks, random ids, child exits, the answers of the operating system and
lost or repeated messages are arbitrary arguments. Fields that exist only for a
statement (for example every line a buffer was ever given) are marked as such where
they are declared. Numbers are unbounded except where the program's width matters:
the history generation wraps as a 64-bit number does, and serialised sizes are taken
to fit a 64-bit word.

## Where the code differs from what one would expect

The model follows the code; each of these has an exact statement, and each failure a run
that shows it.

* A clear, or selecting away and back, that crosses a log poll can cost the client the
  first lines of the new log until its next full answer
  (`LogCompleteness.WholeExactly`, `LogCompleteness.ClearCanLoseLines`).
* A cleared history can be lost on the metrics side: a restart that clears it and then
  fails to start, or shares a session-wide request with another task that fails, leaves
  old samples in the entry (`TaskMetrics.EntriesNeverMix`, `TaskMetrics.ClearCanBeLost`).
* A disabled YAML entry is never validated, but its environment can come back to life
  in the next write and make that file unloadable
  (`ConfigSession.LoadAccepts`, `ConfigWitnesses.DisabledEntryBreaksNextLoad`).
* A submission for a YAML-only task with an empty environment and no `clear_env` keeps
  the old environment (`ConfigSession.RoundTripsExactly`,
  `ConfigWitnesses.EmptyEnvBringsBackOld`).
* A run whose child failed by itself is reported as stopped, without the error text, when
  a stop comes before the next look at it (`RunEndings.EndingsAreExact`,
  `RunEndings.StopHidesFailure`).
* The check before inserting a start row also sees attempt rows, so an attempt that
  carries the same stamp hides a run (`TaskRuns.StartRowMissingExactly`,
  `TaskRuns.AttemptCanHideRun`).
* The leader's comparison of inventories and the sampler's map disagree about a task
  that was missing from one inventory (`RunAgreements.CollectorsAgreeExactly`,
  `RunAgreements.MissedTaskStartsTwice`).
* The process walk does not end when the root is its own ancestor
  (`ProcessTrees.WalkEndsExactly`, `ProcessTrees.ParentCycleNeverEnds`).
* A request's time limit starts only once its command is queued, so a request to a
  connection with a full queue and a stalled writer waits without limit, pending and
  unanswered (`LeaderQueues.UnansweredCanStep`, `LeaderQueues.RequestCanBeStuck`).
* The branch that reports a cancelled command on the leader cannot be reached
  (`LeaderClusters.WaitingIsPendingOrHasMail`).
* A scheduler that wakes late runs a task once for several missed times
  (`SchedulerWindows.FiresOncePerMatch`, `SchedulerWindows.LateWakeFiresOnce`).

## Model

| member | source | states |
|---|---|---|
| LogBuffers.LogBuffer.Push | src/runtime/log_buffer.rs:68-78 | the buffer stays the newest 5,000 lines of everything the generation was given, numbered from 1 without gaps |
| LogBuffers.LogBuffer.Snapshot | src/runtime/log_buffer.rs:80-105 | an answer is what an unbounded log would owe the poller: all lines after its number, or a reset with the newest lines when its number is from the future, was evicted, or is too far back for the limit |
| LogBuffers.OwedAnswers | src/runtime/log_buffer.rs:80-105 | that answer, number by number: it is the end of the log; a reset if and only if the poller's number lies ahead or more lines followed than may be sent; then, as for a first poll, as many of the newest lines as may be sent, at least 1 and at most 5,000; otherwise all that followed |
| LogBuffers.LogBuffer.Clear | src/runtime/log_buffer.rs:107-109 | a cleared buffer is an empty log under the new generation |
| LogBuffers.LinesAfterDrops | src/runtime/log_buffer.rs:90-95 | on consecutively numbered lines, filtering by number drops exactly a prefix |
| LogBuffers.RetainedShowsEvicted | src/runtime/log_buffer.rs:82-86 | the number of the first retained line tells exactly how many lines were evicted |
| LogClient.App.MergeLogs | src/tui/mod.rs:122-140 | the cache after a merge: replaced on a reset, a changed generation or an empty cache, otherwise extended, and cut to its newest 1,000 lines |
| LogClient.App.Select | src/tui/mod.rs:90-96 | selects an index in range and nothing else; another task comes with an empty cache at the end of its log, and the same one or a bad index changes nothing |
| LogClient.App.Next | src/tui/mod.rs:98-102 | moves cyclically forward, with a reset exactly when the selection changes |
| LogClient.App.Previous | src/tui/mod.rs:104-112 | moves cyclically backward, with a reset exactly when the selection changes |
| LogClient.App.Update | src/tui/mod.rs:77-88 | a label that is still listed stays selected, where it first occurs, with its cache and scroll position untouched; otherwise the first label is selected and nothing is kept of the old one |
| LogClient.App.ResetLogs | src/tui/mod.rs:114-120 | the cache becomes empty and the view follows the end again |
| LogMirror.MergeExtends | src/tui/mod.rs:122-140 | a payload that answers `after` extends a stretch ending at `after` to one that ends where the buffer ended, and its length is known exactly |
| LogMirror.MergeShowsSuffix | src/tui/mod.rs:305-310 | in every reachable state a merge leaves a suffix of the buffer that was served, and the full newest stretch if and only if nothing was skipped |
| LogMirror.CompleteStaysComplete | src/tui/mod.rs:122-140 | a client that held the newest 1,000 lines still does after any merge of the same generation that no reset crossed |
| LogMirror.StepKeepsInv | src/tui/mod.rs:282-309 | every push, clear, removal, poll, answer, loss, merge and selection keeps the cache a stretch of the selected task's log, and a poll not crossed by a reset in step with the cache |
| LogMirror.EveryRunMirrors | src/tui/mod.rs:282-309 | from the empty client, over every interleaving with one poll outstanding, each merge shows a suffix of the buffer that answered |
| LogMirror.ListedLabelKeepsCache | src/tui/mod.rs:77-88 | over every run in which no other label is selected and each new label list has the selected one: it stays selected, and its cache is what merging the answers makes of it, never reset |
| LogCompleteness.StepBase | src/tui/mod.rs:282-309 | each step keeps the cache the newest lines after a known number of missing ones; that number is set by a delta that continues nothing the client holds, and falls back to none with a full answer or a reset |
| LogCompleteness.WholeExactly | src/tui/mod.rs:282-309 | after every run from the empty client: it holds the newest lines up to the last one it has seen, if and only if none are missing since its last full answer or reset, or those have scrolled out of its 1,000 lines |
| LogCompleteness.ClearCanLoseLines | src/tui/mod.rs:122-140 | a run in which a clear crosses a poll and the client shows line 2 of a two-line log without line 1 |
| WorkflowGraphs.WorkflowGraphHasCycle | src/state/workflow.rs:319-352 | terminates, and returns true if and only if some node has a non-empty path to itself; when it returns false there is a topological order |
| WorkflowGraphs.BuildAdjacency | src/state/workflow.rs:323-326 | the adjacency lists hold exactly the edges |
| WorkflowGraphs.SearchFrom | src/state/workflow.rs:330-349 | one search from a white or finished node finds a cycle, or finishes that node and keeps all finished nodes ordered after their successors |
| WorkflowGraphs.TakeTurn | src/state/workflow.rs:331-348 | the in-place stack and colour updates of one turn of the inner loop |
| WorkflowGraphs.TurnKeepsOk | src/state/workflow.rs:331-348 | a turn keeps the gray nodes equal to the path on the stack and the black nodes in finishing order |
| WorkflowGraphs.TurnShrinks | src/state/workflow.rs:331-348 | a turn makes the triple of white nodes, unread successors and stack height smaller, which is why the loop ends |
| WorkflowGraphs.GrayClosesCycle | src/state/workflow.rs:332-335 | meeting a gray node exhibits a real cycle through the stack |
| WorkflowGraphs.TopologicalMeansAcyclic | src/state/workflow.rs:219-233 | a graph with a topological order has no cycle |
| WorkflowGroups.CheckMembers | src/state/workflow.rs:196-216 | reports the first member with an empty field or an earlier duplicate, if there is one |
| WorkflowGroups.CheckEdges | src/state/workflow.rs:218-229 | reports the first edge out of range, to itself or duplicated, if there is one |
| WorkflowGroups.NormalizeWorkflowGroupInput | src/state/workflow.rs:188-239 | accepts exactly the acceptable inputs, names the first fault otherwise; an accepted group has its name and members trimmed, its edges as they were, no more positions than members, and can be ordered |
| WorkflowGroups.AcceptableExactly | src/state/workflow.rs:188-239 | acceptable is an input with something besides white space in its name and in each field of its members, members that stay apart when trimmed, edges between two different members in range, each once, and no cycle |
| Text.TrimIs | src/state/workflow.rs:191-201 | trimming takes off the white space at both ends, all of it, and nothing else |
| WorkflowGroups.NormalizedIsFixed | src/state/workflow.rs:188-239 | what was accepted is accepted again unchanged |
| WorkflowGroups.RevisionTable.NextWorkflowRevision | src/state/workflow.rs:269-281 | the next number is one more than the number of versions ever saved, and free |
| WorkflowGroups.RevisionTable.RecordWorkflowRevision | src/state/workflow.rs:284-317 | the table always holds exactly the newest 50 versions, numbered without gaps |
| ProcessTrees.AggregateProcessTree | src/daemon/process_tree.rs:107-158 | for distinct pids and a root that is not its own ancestor: ends, with a row for exactly the root and its descendants, each once, the root first and then by ascending pid; memory and CPU share are the sums over those rows, and the count is their number |
| ProcessTrees.WalkEndsExactly | src/daemon/process_tree.rs:130-152 | for distinct pids and an observed root, the walk ends if and only if the root is not its own ancestor |
| ProcessTrees.ParentCycleNeverEnds | src/daemon/process_tree.rs:130-152 | two processes listed as each other's parent keep the walk going for ever |
| ProcessTrees.CycleBelowRootMeetsRoot | src/daemon/process_tree.rs:130-152 | any cycle of parents below the root passes through the root |
| ProcessTrees.ChildIsNew | src/daemon/process_tree.rs:148-151 | a child pushed by the walk was never popped and is not waiting, so no visited set is needed |
| ProcessTrees.TurnKeepsWalkOk | src/daemon/process_tree.rs:131-151 | each turn keeps every seen or waiting pid a distinct descendant whose parent was seen |
| ProcessTrees.CycleStaysOnStack | src/daemon/process_tree.rs:130-152 | when the root is its own ancestor, the stack never runs empty |
| ProcessTrees.SortRowsSorted | src/daemon/process_tree.rs:153-157 | sorting puts the root first and the rest by pid, and keeps every row |
| ProcessTrees.SortRowsSums | src/daemon/process_tree.rs:134-157 | rows add up to the same memory and CPU share after sorting |
| ProcessTrees.ProcessTreePids | src/runtime/process.rs:72-83 | ends on every entry list, cycles included, with the least set that has the root and is closed under child |
| ProcessTrees.FixpointIsTree | src/runtime/process.rs:72-83 | over the same processes the fixpoint is exactly the pid set of the metrics walk |
| ConfigYaml.ParsesTo | src/config/yaml.rs:98-193 | when each key decodes and the timeout is in range, the mapping parses to the patch with those values |
| ConfigYaml.ParsesExactly | src/config/yaml.rs:47-70 | any task mapping, whoever wrote it, is read if and only if every key that is given and not null has a value of its own kind and the timeout is between 1 and 300,000; and then each value is the given one, or none |
| ConfigYaml.StringsDecode | src/config/yaml.rs:280-282 | a written string list reads back |
| ConfigYaml.OptionalMapDecodes | src/config/yaml.rs:294-309 | a written map with tombstones reads back, tombstones included |
| ConfigYaml.PlainMapDecodes | src/config/yaml.rs:284-292 | a written plain map reads back as all values present |
| ConfigYaml.YamlMappingParses | src/config/yaml.rs:195-230 | the mapping written for a YAML-only task keeps unknown keys and reads back as that task in full, with the old environment when none was given |
| ConfigYaml.DisabledMappingParses | src/config/yaml.rs:232-238 | the marker for a left-out import keeps unknown keys and reads back as disabled |
| ConfigYaml.BuildImportedEnvDiff | src/config/merge.rs:305-325 | the two loops leave exactly the changed and new values, and tombstones for the names the submission lacks |
| ConfigYaml.BuildClearedEnvDiff | src/config/merge.rs:348-357 | with `clear_env`, every imported name is a tombstone or a submitted value, and every submitted value is there |
| ConfigYaml.ImportedMappingParses | src/config/merge.rs:327-397 | the difference written for an imported task keeps unknown keys and reads back as exactly the changed fields |
| ConfigMerge.ApplyEnv | src/config/merge.rs:107-119 | applying an environment difference in any order sets, keeps and removes exactly the right names |
| ConfigMerge.ApplyOverride | src/config/merge.rs:94-140 | each field comes from the patch when it is there and from the task otherwise |
| ConfigMerge.MergeTasks | src/config/merge.rs:33-60 | succeeds if and only if every enabled entry makes a valid task; then imports without an entry are as they were, disabled ones are gone, and every other entry lies field by field over its import, or over the literal defaults of a task that says nothing |
| ConfigMerge.ValidTaskExactly | src/config/merge.rs:236-277 | a task is valid if and only if label, command, working directory and environment names have something besides white space in them, the timeout is between 1 and 300,000 ms, and a schedule parses |
| ConfigMerge.ResolveTaskOrder | src/config/merge.rs:62-92 | succeeds if and only if the configured labels are distinct and known, and then lists every task exactly once: the configured ones first and in their order, then the others in the order of the source |
| ConfigMerge.ExtendedComplete | src/config/merge.rs:85-89 | an order that lists every task is not changed by any other label list |
| ConfigMerge.EnvDiffApplies | src/config/merge.rs:305-325 | applying the environment difference to the import gives the submitted environment, for both settings of `clear_env`; without it the difference has exactly the names that differ |
| ConfigMerge.ImportedTaskReturns | src/config/merge.rs:327-397 | patching the import with what was written gives the submitted task, if and only if the submission does not drop a schedule of the import |
| ConfigMerge.YamlTaskReturns | src/config/yaml.rs:195-230 | a YAML-only task returns as submitted, with the one environment that can be kept from the old file |
| ConfigSession.ValidateSubmittedTasks | src/config/merge.rs:199-224 | accepts exactly lists of valid tasks with distinct labels, and indexes them by label in the submitted order |
| ConfigSession.BuildNodes | src/config/session_config.rs:189-226 | one node for each submitted task that differs from what it would be anyway, one marker for each import left out, and no other |
| ConfigSession.BuildMarkers | src/config/session_config.rs:211-226 | exactly the imports that were not submitted get a disabled marker, which keeps their unknown keys |
| ConfigSession.PrepareSessionConfigWrite | src/config/session_config.rs:135-268 | refuses a stale revision, a blank environment name or an invalid submission, and otherwise prepares exactly the document of the submission |
| ConfigSession.PlainMapLoads | src/config/session_config.rs:181-187 | a written workspace environment reads back |
| ConfigSession.TableLoads | src/config/yaml.rs:98-193 | a table of readable nodes loads as one entry for each node |
| ConfigSession.LoadsExactly | src/config/yaml.rs:98-193 | any file, whoever wrote it, loads if and only if its version is 1 or left out and every other key is of its own kind; and then the document has exactly what the file says |
| ConfigSession.SubmittedTaskReturns | src/config/session_config.rs:191-209 | each submitted task reads back from its mapping, with unknown keys kept, and is left out of the file if and only if it equals its import and has no unknown keys |
| ConfigSession.WriteThenLoad | src/config/session_config.rs:135-329 | for any imports without schedules, any loaded prior file and any valid submission, the written document loads back as the submitted tasks, order and workspace environment, under version 1, with the session name and the unknown keys of the old file |
| ConfigSession.MergedIsSubmitted | src/config/session_config.rs:189-236 | loading what was written gives every submitted task, and no other |
| ConfigSession.UnknownKeysStay | src/config/yaml.rs:195-255 | keys of a task that the program does not know are in the next load what they were, and keep the task in the file |
| ConfigSession.RoundTripsExactly | src/config/session_config.rs:191-209 | every task returns as submitted if and only if no YAML-only task is sent with an empty environment that the old file filled |
| ConfigSession.LoadAccepts | src/config/session_config.rs:270-329 | the written file is accepted at the next load if and only if no environment kept from the old file has a blank name |
| ConfigSession.LoadedEnvIsFilled | src/config/merge.rs:33-60 | environments of enabled entries in a file that loads have no blank names |
| ConfigSession.WritingTwiceIsWritingOnce | src/config/session_config.rs:158-236 | saving the same submission over its own result changes nothing |
| ConfigWitnesses.BlankNameDocumentLoads | src/config/yaml.rs:98-193 | the old file of the next row does load |
| ConfigWitnesses.DisabledEntryBreaksNextLoad | src/config/merge.rs:42-46 | a disabled entry with a blank environment name and a submission that takes its label up again make a file that does not load |
| ConfigWitnesses.OldEnvDocumentLoads | src/config/yaml.rs:98-193 | the old file of the next row does load |
| ConfigWitnesses.EmptyEnvBringsBackOld | src/config/yaml.rs:205-209 | a YAML-only task sent with an empty environment comes back with the one of the old file |
| TaskRuntimes.TaskRuntime.constructor | src/runtime/task.rs:66-83 | a new task is idle, has run no generation, and is in history generation 1 |
| TaskRuntimes.TaskRuntime.Poll | src/runtime/task.rs:287-308 | a child that has ended is gone, its task exited or failed as it did, with its code and text; anything else changes nothing, and only an error of the call fails |
| TaskRuntimes.TaskRuntime.Start | src/runtime/task.rs:96-189 | succeeds if and only if no child is left and the spawn succeeds, and then a new generation runs with that pid and start time and nothing of the last exit; otherwise the generation stays |
| TaskRuntimes.TaskRuntime.Pause | src/runtime/task.rs:199-214 | pauses a running task if and only if its child lives and took the signal |
| TaskRuntimes.TaskRuntime.Resume | src/runtime/task.rs:216-228 | resumes a paused task if and only if its child lives and took the signal |
| TaskRuntimes.TaskRuntime.Stop | src/runtime/task.rs:230-275 | succeeds if and only if there is no child, it has ended, or it is waited for, and then the task is idle with the exit of that child; after a failed wait the child is gone and the status is as it was |
| TaskRuntimes.TaskRuntime.Restart | src/runtime/task.rs:277-285 | succeeds if and only if the stop and the spawn do, and then the next generation runs; the history is cleared if and only if so configured and the stop succeeded, even when the start fails |
| TaskRuntimes.TaskRuntime.ClearHistory | src/runtime/task.rs:320-323 | the next history generation, wrapping at 64 bits and never 0 |
| TaskRuntimes.OperationFollows | src/runtime/task.rs:96-323 | every operation keeps a child only under an active status and never makes a finished generation active again, and a new generation begins running |
| TaskRuntimes.OperationsFollow | src/runtime/task.rs:96-323 | no sequence of operations brings a finished generation back to life |
| SessionRuntimes.SessionRuntime.ApplyOne | src/runtime/mod.rs:187-199 | an action on one task changes that task alone, also when it fails; a success reports whether it was restarted and whether it got another history |
| SessionRuntimes.SessionRuntime.ApplyAll | src/runtime/mod.rs:200-217 | a session-wide action reaches every task; it succeeds if and only if all of them do, and then reports of each whether it was restarted and got another history; otherwise exactly the labels that failed |
| SessionRuntimes.OpOkMeans | src/runtime/task.rs:310-318 | an action has succeeded if and only if the task shows it: a start or restart by the next generation, a pause or resume by the changed status, a stop by being idle |
| SessionRuntimes.SessionRuntime.Update | src/runtime/mod.rs:153-185 | a reload never touches the runtime of a task that stays, even when it fails half way; it succeeds if and only if every label taken out can be stopped and every new one that starts by itself is spawned, and then the labels and configurations are the new ones; the new order is in place either way, the new source only on success |
| SessionRuntimes.SessionRuntime.StopRemoved | src/runtime/mod.rs:156-169 | labels taken out are stopped and dropped, up to the first that does not stop; succeeds if and only if all of them can be stopped |
| SessionRuntimes.SessionRuntime.ConfigureAll | src/runtime/mod.rs:171-182 | labels that stay get their new configuration and keep their runtime; new ones get a fresh runtime, started if so configured, up to the first that does not start; succeeds if and only if all of these are spawned |
| SessionRuntimes.StepFollows | src/runtime/mod.rs:153-217 | over any action or reload, a label that stays keeps its generations growing |
| SessionRuntimes.PresentLabelFollows | src/runtime/mod.rs:153-217 | the same over any number of actions and reloads: a finished generation stays finished as long as its label is there |
| SessionRuntimes.ReplacementResets | src/runtime/mod.rs:153-185 | a run of two reloads that takes a label out and puts it back, after which its generation has been turned back |
| RunTransitions.CollectBoundaries | src/daemon/notifications.rs:345-388 | the transitions for one task between what was remembered and what is seen now |
| RunTransitions.BoundariesScan | src/daemon/notifications.rs:345-388 | one look at a task extends a well-bracketed stream to a well-bracketed one, open exactly when the task is seen active |
| RunTransitions.EventKeepsLife | src/daemon/notifications.rs:330-395 | bracketing survives every operation and every sample at any moment |
| RunTransitions.StreamIsBracketed | src/daemon/notifications.rs:330-395 | over any operations and sampling times the emitted stream is Started(g1), Finished(g1), Started(g2), ... with increasing generations, open exactly when the task was last seen active, and it reports exactly the sampled generations |
| RunEndings.OperationKeepsEnding | src/runtime/task.rs:230-308 | the runtime's status, code and text are those of the facts: exited or failed if and only if the child ended so and no stop has succeeded on the generation since, idle if and only if one has; and what was learned of an end is never changed |
| RunEndings.EndingsAreTruthful | src/daemon/notifications.rs:240-263 | over any operations, answers and sampling times: every reported end that says more than that the run is over carries the code and text this very run's child left, is called exited only if the child succeeded and failed only if it did not |
| RunEndings.EndingsAreExact | src/daemon/notifications.rs:240-395 | over any operations, answers and sampling times: each look tells the start of the generation it sees, with its start time, if that is new, and its end if it is over and was not told before; as stopped if and only if a stop has succeeded on it by then, otherwise as exited or failed as its child did, with that code, and the text on failure or without a code; and as stopped, with nothing more, of a run that was replaced before it was seen to end |
| RunEndings.StopHidesFailure | src/daemon/notifications.rs:240-263 | a run in which a child fails by itself, a stop follows, and the end is reported as stopped without the error |
| RunCollectors.Sampler.CollectRunTransitions | src/daemon/notifications.rs:330-395 | one round over all sampled tasks, with the tracked map and the recorded triggers it leaves |
| RunCollectors.CollectIsPerTask | src/daemon/notifications.rs:330-395 | for each task a round is one look at that task alone, whatever else was sampled, and a recorded trigger labels one start only |
| RunCollectors.StartsAreLabelled | src/daemon/notifications.rs:221-238 | a reported start carries the trigger recorded for its task, or else "auto_start" or "manual" as it is configured; a recorded trigger stays until a start has used it |
| RunSamplers.SweepIsOneLook | src/daemon/notifications.rs:330-395 | a round over all tasks, some of which fail to be polled, keeps every single task's stream well bracketed |
| RunSamplers.EveryStreamIsBracketed | src/daemon/notifications.rs:330-395 | over any operations on any number of tasks and any rounds of sampling, the part of the emitted stream that belongs to each task is well bracketed, and open exactly when that task was last seen active |
| RunCollectors.UnmentionedUntouched | src/daemon/notifications.rs:330-395 | a task that is not sampled keeps its track, its trigger and its stream |
| RunCollectors.CollectInventoryTransitions | src/daemon/notifications.rs:270-328 | the comparison of two inventories, task by task |
| RunAgreements.RoundAgreesExactly | src/daemon/notifications.rs:270-395 | one round of distinct tasks: the two collectors report the same, up to trigger text, if and only if each task that the map remembers and the last inventory lacks never ran, or has a new run after the remembered one had ended |
| RunAgreements.CollectorsAgreeExactly | src/daemon/notifications.rs:270-395 | over any stream of inventories, whatever tasks come and go: the two agree in every round if and only if every task that comes back meets that condition |
| RunAgreements.IncrementalIsPairwise | src/daemon/notifications.rs:270-395 | over a stream of inventories from which no task disappears, the incremental collector reports what comparing neighbours reports, up to trigger text |
| RunAgreements.MissedTaskStartsTwice | src/daemon/notifications.rs:270-395 | a running task that one inventory misses is reported as started twice by the comparison and once by the map |
| TaskRuns.TaskRunTable.StartTaskRun | src/state/events.rs:79-115 | adds one open start row and touches no other |
| TaskRuns.TaskRunTable.RecordTaskRunStart | src/state/events.rs:218-235 | inserts exactly when no row has that generation and start time |
| TaskRuns.TaskRunTable.RecordTerminalTaskRunAttempt | src/state/events.rs:148-182 | adds one closed attempt row stamped with the present |
| TaskRuns.TaskRunTable.FinishTaskRun | src/state/events.rs:238-252 | closes the newest open row of the generation with that outcome and changes no other, or nothing when there is none, and says which |
| TaskRuns.TaskRunTable.FinishRunningTaskRuns | src/state/events.rs:184-197 | closes every open row and changes no closed one |
| TaskRuns.LastOpen | src/state/events.rs:250 | finds the newest open row of a generation, if there is any |
| TaskRuns.CronStartKeepsInv | src/daemon/scheduler.rs:180-205 | starting under the sessions lock gives the scheduler a generation the sampler has not seen |
| TaskRuns.CronInsertKeepsInv | src/daemon/scheduler.rs:189-205 | the scheduler's insert cannot duplicate a row although its check was a step of its own |
| TaskRuns.SamplerInsertKeepsInv | src/daemon/sampler.rs:66-73 | nor can the sampler's |
| TaskRuns.CollectKeepsInv | src/daemon/sampler.rs:56-62 | what the sampler queues names generations with their true start times, in order |
| TaskRuns.SamplerFinishKeepsInv | src/daemon/sampler.rs:74-92 | closing a run that was seen to end leaves no open row of its generation, now or later |
| TaskRuns.StepKeepsInv | src/daemon/handle.rs:371-424 | each step of scheduler, sampler and action handler keeps the rows sound |
| TaskRuns.RowsStaySound | src/daemon/scheduler.rs:180-205 | in every interleaving: at most one start row for each generation and start time, a row with the stamp of every recorded run, and every run seen to end is closed once the sampler has worked off its queue |
| TaskRuns.StepKeepsHidden | src/state/events.rs:199-235 | each step of the three writers leaves a recorded run with its start row, or without one, as it was, except a check that finds attempts only |
| TaskRuns.StartRowMissingExactly | src/state/events.rs:199-235 | in every interleaving a recorded run has no start row if and only if the sampler's own check for it found attempt rows with its stamp and no start row among them |
| TaskRuns.RowsOnlyGrowAndClose | src/state/events.rs:79-252 | in every interleaving no row is removed and no closed row is reopened or rewritten |
| TaskRuns.OutcomesAreTold | src/daemon/sampler.rs:74-92 | in every interleaving a closed start row says "stopped", or the label under which the sampler was told of the end of that very generation, unless an earlier daemon closed it |
| TaskRuns.StopIsClosed | src/daemon/handle.rs:371-424 | an action that has stopped an active run can close that run's row, and then leaves none of it open |
| TaskRuns.AttemptCanHideRun | src/state/events.rs:148-235 | a run of four steps after which a running generation has no start row, because an attempt row carries its stamp |
| SchedulerWindows.Scheduler.IsDue | src/daemon/scheduler.rs:117-150 | the walk over milliseconds finds a match if and only if the schedule holds at some second of the window |
| SchedulerWindows.NormalizedIs | src/daemon/scheduler.rs:120-125 | an expression of five words gets the word 0 in front, and any other is left as it is |
| SchedulerWindows.Scheduler.Round | src/daemon/scheduler.rs:104-154 | a round lists exactly the tasks due in the seconds after the last processed one, and processes nothing when the clock has not moved on |
| SchedulerWindows.EverySecondOnce | src/daemon/scheduler.rs:104-154 | however the clock jumps, every second up to the latest reading is looked at exactly once and none twice |
| SchedulerWindows.FiresOncePerMatch | src/daemon/scheduler.rs:129-154 | a task fires at most once for each matching second, at least once if there is any, and once for each if and only if no round spans two of them |
| SchedulerWindows.LateWakeFiresOnce | src/daemon/scheduler.rs:129-154 | a wake-up two seconds late runs a task once for two matching seconds |
| Ranking.FirstSize | src/state/audit.rs:195-232 | picking the first n of a set by time and id picks min(n, size) |
| Ranking.FirstSqueeze | src/state/audit.rs:195-232 | dropping elements that are not among the first n does not change which are |
| Ranking.BothEndsCover | src/state/audit.rs:208-230 | the oldest a and the newest b together miss nothing if and only if there are at most a + b |
| AuditStores.AuditStore.RecordAudit | src/state/audit.rs:17-84 | stores the record with an id of its own and with payloads that are clean, within 64 KiB, and the given ones if those were so already, all other columns as given; by an upsert that never takes a replication mark away, followed by retention |
| AuditStores.SanitizedIsSafelyStored | src/state/audit.rs:17-20 | of any record whose payloads fit a 64-bit size, each stored payload has no sensitive key with a value, is within 64 KiB, and is the given one if that was so already |
| AuditStores.RecordedRows | src/state/audit.rs:38-57 | the row of that id gets the new columns, and is replicated if it was or the new one is; no other row changes |
| AuditStores.MarkStays | src/state/audit.rs:38-187 | over any recording and marking, a row that is held keeps its mark |
| AuditStores.SanitizedIsFixed | src/state/audit.rs:17-20 | a record that was sanitised when it was recorded is stored unchanged when it is recorded again elsewhere |
| AuditStores.AuditStore.PruneAuditRecords | src/state/audit.rs:195-232 | keeps exactly the newest 10,000 replicated rows and the oldest and newest 10,000 pending ones |
| AuditStores.PrunedExactly | src/state/audit.rs:195-232 | row by row: a replicated row stays if and only if fewer than 10,000 replicated ones are newer, a pending one if and only if fewer than 10,000 pending ones are older or fewer than 10,000 are newer; none changes |
| AuditStores.AuditStore.UnreplicatedAuditRecords | src/state/audit.rs:157-166 | the next batch: the oldest pending records, in the order of time and id |
| AuditStores.OldestPendingMeans | src/state/audit.rs:157-166 | row by row: oldest first, min(limit, pending) of them, and every pending row left out comes after all of them |
| AuditStores.BatchExists | src/state/audit.rs:157-166 | there is such a batch for every table, and it is not empty while anything is pending |
| AuditStores.AuditStore.MarkAuditReplicated | src/state/audit.rs:168-187 | marks exactly the named rows, then applies retention; an empty list does nothing |
| AuditStores.AuditStore.IngestReplicatedAudit | src/state/audit.rs:189-193 | an ingested record is stored as replicated |
| AuditStores.PruneSqueeze | src/state/audit.rs:195-232 | a part of the table that still has all that retention would keep prunes to the same rows |
| AuditStores.PruneThenInsert | src/state/audit.rs:81-83 | inserting into the pruned table ends where inserting into the full one would |
| AuditStores.StreamedIsPrunedOnce | src/state/audit.rs:81-83 | pruning after every insert leaves exactly what pruning the whole history once would leave, for any arrival order and repetition |
| AuditStores.ArrivalOrderIsIrrelevant | src/state/audit.rs:38-57 | two arrival orders of the same records end in the same table |
| AuditStores.PendingSurvivesExactly | src/state/mod.rs:52-57 | retention loses pending records if and only if more than 20,000 are pending |
| AuditStores.PruneKeepsBatch | src/state/audit.rs:157-166 | no prune changes which records are sent next |
| AuditReplication.IngestWorkerAudits | src/cluster/leader.rs:333-363 | the leader stores every record that has an id, in order, attributed to the node of the connection, and acknowledges exactly their ids, each once |
| AuditReplication.AcceptedAre | src/cluster/leader.rs:336-339 | exactly the records that have an id are accepted |
| AuditReplication.AttributionIs | src/cluster/leader.rs:340-352 | the executor is the connection's node, an origin that was given stays and a missing one becomes that node, another executor that was reported is kept in the details beside all that was there, and nothing else changes |
| AuditReplication.StepKeepsInv | src/cluster/worker.rs:111-131 | each record, send, delivery and acknowledgement, repeated or out of order, keeps marks on the worker behind ingestion on the leader |
| AuditReplication.ReplicatedIsSafe | src/cluster/worker.rs:111-131 | in every run, a record the worker holds as replicated was ingested, and the leader still has it, attributed to the worker, or 10,000 newer ones |
| AuditReplication.PayloadsArriveUnchanged | src/cluster/leader.rs:333-363 | in every run, what the leader holds of a worker's record has the worker's request and response byte for byte, names the worker as executor, and has its details too unless another executor was reported |
| AuditReplication.TablesAreClean | src/state/audit.rs:17-20 | in every run, no row of the worker's or the leader's table has a sensitive key with a value at any depth, and no payload of the worker's is larger than 64 KiB |
| AuditReplication.ReingestingChangesNothing | src/state/audit.rs:38-57 | delivering a record again leaves the leader's table as it is, even if retention had dropped the record |
| AuditReplication.MarkingDrains | src/state/audit.rs:168-187 | marking the current batch takes exactly min(100, pending) off the queue |
| AuditReplication.RoundDrains | src/cluster/worker.rs:121-131 | so does one lossless round of send, ingest and acknowledge |
| AuditReplication.RoundsDrain | src/cluster/worker.rs:121-131 | n lossless rounds without new records leave max(0, pending - 100 n) |
| AuditReplication.QueueEmpties | src/cluster/worker.rs:121-131 | while anything is pending there is a batch to send, and after pending / 100 lossless rounds, rounded up, nothing is pending |
| AuditPayloads.RedactedIsClean | src/protocol/util.rs:112-129 | after redaction no sensitive key at any depth keeps its value |
| AuditPayloads.CleanIsFixed | src/protocol/util.rs:112-129 | redaction leaves a value alone if and only if it is clean |
| AuditPayloads.RedactsExactly | src/protocol/util.rs:112-129 | at every place in a payload: where no sensitive key leads there, what was there stays, as many items, the same keys and values; what a sensitive key holds becomes the redaction mark |
| AuditPayloads.SensitiveExactly | src/protocol/util.rs:84-110 | sensitive are the fourteen words and all keys with one of the four endings, in either case and with dashes for underscores |
| AuditPayloads.WrapperBytes | src/protocol/util.rs:131-141 | the serialised stand-in for an oversized value has at most 2,000 bytes, whatever it replaces |
| AuditPayloads.WrapperIsClean | src/protocol/util.rs:131-141 | the stand-in has no sensitive key |
| AuditPayloads.SanitizedIsSafe | src/protocol/util.rs:143-145 | a sanitised payload is clean and within 64 KiB |
| AuditPayloads.SanitizesTo | src/protocol/util.rs:131-145 | what is stored is the redacted payload if that is within 64 KiB, and otherwise its size in decimal digits and the first 256 characters of its text |
| AuditPayloads.CharBytesLeast | src/protocol/util.rs:131-135 | sizes are counted as UTF-8 does (section 3 of RFC 3629): each character takes the fewest bytes that have room for it |
| AuditPayloads.SanitizeIsIdempotent | src/state/audit.rs:17-20 | a payload sanitised on the worker is unchanged when the leader sanitises it again |
| AuditPayloads.SanitizeKeepsExactly | src/protocol/util.rs:143-145 | sanitising leaves a payload alone if and only if it is clean and small enough |
| JsonTexts.ReadsBack | src/state/audit.rs:27-29 | the text of a value, followed by anything that does not go on as a number, reads back by the grammar of RFC 8259 as that value with the rest left over |
| JsonTexts.StoredReadsBack | src/state/audit.rs:27-29 | the text that is stored for a sanitised payload reads back as that payload |
| LikePatterns.EscapeLikeIsEscaped | src/state/pagination.rs:11-16 | the three successive replacements equal one escape for each special character |
| LikePatterns.EscapedThenPercent | src/state/pagination.rs:11-16 | an escaped query followed by a wildcard matches exactly the texts that start with the query |
| LikePatterns.SearchIsSubstring | src/state/audit.rs:89-97 | the search pattern matches exactly the texts that contain the query, up to the ASCII case that LIKE ignores |
| LikePatterns.FoldedSearchIsExact | src/state/audit.rs:89-97 | on case-folded input it matches exactly the texts that contain the query literally |
| LikePatterns.WildcardsMatchAnything | src/state/pagination.rs:11-16 | without the escape, a query of one underscore or percent sign would find all texts |
| LeaderClusters.LeaderCluster.constructor | src/cluster/leader.rs:52-77 | known workers are loaded offline, without a connection, with the name, time and inventory they had |
| LeaderClusters.LeaderCluster.ConnectWorker | src/cluster/leader.rs:83-141 | accepts exactly a greeting with protocol 2, an id and a name that are not blank and the enrolment token if one is set, of a worker that is not online; the worker then has that name, connection and time and the inventory that was cached, and no other changes |
| LeaderClusters.LeaderCluster.ForgetWorker | src/cluster/leader.rs:143-157 | removes that worker alone and hands back its sender |
| LeaderClusters.LeaderCluster.DisconnectWorker | src/cluster/leader.rs:159-168 | takes the worker offline only for its current connection id |
| LeaderClusters.LeaderCluster.UpdateInventory | src/cluster/leader.rs:170-199 | replaces the inventory of a known worker, reports exactly the transitions against the one it replaces, and refuses an unknown worker |
| LeaderClusters.LeaderCluster.Heartbeat | src/cluster/leader.rs:201-211 | moves only the last-seen time, never before the present |
| LeaderClusters.LeaderCluster.ResolveResult | src/cluster/leader.rs:213-223 | a result is handed over exactly when its id is pending, and takes the id off |
| LeaderClusters.RunKeepsInv | src/cluster/leader.rs:108-331 | in every reachable state online, sender and connection id go together, connection ids are never shared, and the pending table holds exactly the requests that can still be answered |
| LeaderClusters.EveryRunKeepsInv | src/cluster/leader.rs:52-331 | so from the constructor's state on |
| LeaderClusters.AnswersAreFinal | src/cluster/leader.rs:257-331 | a request that was answered keeps that one answer for good |
| LeaderClusters.WaitingIsPendingOrHasMail | src/cluster/leader.rs:310-331 | a waiting request either is pending or has a response to read, never neither and never both |
| LeaderClusters.OwnStepsLead | src/cluster/leader.rs:257-331 | over any run each step of its own takes a request closer to its answer and nothing else sets it back: it is answered by the fourth at the latest |
| LeaderClusters.RefusedForGood | src/cluster/leader.rs:263-284 | a request is refused at once if and only if its node has no connection, and then for good and without ever being pending |
| LeaderClusters.FirstResultWins | src/cluster/leader.rs:213-223 | over any run the first result for a request is the one it reads |
| LeaderClusters.DisconnectIsExact | src/cluster/leader.rs:159-168 | a disconnect with an old connection id changes nothing |
| LeaderClusters.ConnectionLasts | src/cluster/leader.rs:108-168 | over any run a worker stays online on its connection until that very connection ends or the worker is forgotten |
| LeaderClusters.InventoryLasts | src/cluster/leader.rs:108-199 | going away and coming back keeps the cached inventory |
| LeaderQueues.RunKeepsInv | src/cluster/leader.rs:108-331 | with bounded queues too, in every reachable state no queue holds more than 128 messages and every connected worker and unsent request has one |
| LeaderQueues.LeaderPartRuns | src/cluster/leader.rs:257-331 | queues only hold requests back: every run with them is a run of the leader without them, so the results above hold here |
| LeaderQueues.QueueCounts | src/cluster/leader.rs:113-379 | over every run a queue holds what it held, and the commands, acknowledgements and farewells put into it, less what its writer has taken |
| LeaderQueues.UnansweredCanStep | src/cluster/leader.rs:285-331 | in every state a new leader can reach, a request without an answer can take a step of its own if and only if it is not waiting to send on a live connection whose queue is full |
| LeaderQueues.StuckLasts | src/cluster/leader.rs:285-331 | such a request stays stuck over every run in which that connection's writer neither takes a message nor ends |
| LeaderQueues.RequestCanBeStuck | src/cluster/leader.rs:285-331 | a run from a new leader to a request that is pending on an online worker and has no step left, not even a timeout |
| CommandCaches.CommandResultCache.Get | src/cluster/worker.rs:157-162 | the response of the first entry with that id, if there is any |
| CommandCaches.CommandResultCache.Insert | src/cluster/worker.rs:164-169 | adds the entry and drops the oldest beyond the capacity |
| CommandCaches.CacheIsLastExecutions | src/cluster/worker.rs:99-108 | over any commands the cache is the last 256 executions, with distinct ids |
| CommandCaches.AnsweredFromExecution | src/cluster/worker.rs:99-108 | a command is answered from an earlier execution, and not executed, if and only if fewer than 256 executions came after it |
| CommandCaches.FewOthersFewExecutions | src/cluster/worker.rs:99-108 | while fewer than 256 other ids are seen, each is executed at most once |
| CommandCaches.RepeatIsNotExecuted | src/cluster/worker.rs:99-108 | a repeated command with fewer than 256 other ids in between is not executed again and gets the first response |
| TaskMetrics.TaskMetricsEntry.ApplyObservation | src/daemon/metrics.rs:70-96 | keeps the newest 600 samples, with the totals and processes of the last one as the current value; without an observation there is no current value and no sample is added |
| TaskMetrics.AppendedAt | src/daemon/metrics.rs:79-87 | the new sample comes last, the old ones stay in their order, and only the oldest of 600 goes |
| TaskMetrics.TaskMetricsEntry.Snapshot | src/daemon/metrics.rs:98-120 | the current value, the newest samples of the window, and in their order the restart markers not older than the first of them |
| TaskMetrics.SinceSplits | src/daemon/metrics.rs:112-117 | markers are kept or dropped one by one, in their order |
| TaskMetrics.TaskMetricsEntry.MarkRestart | src/daemon/metrics.rs:122-127 | keeps the newest 600 markers and touches no sample |
| TaskMetrics.AdvancedReturns | src/runtime/task.rs:320-323 | the history generation is back at the same number exactly after whole cycles of 2^64 - 1 clears |
| TaskMetrics.StepKeepsInv | src/daemon/sampler.rs:100-216 | through every interleaving the sampler's identity stays comparable: generations only grow, and the history number is the collected one advanced by the clears since |
| TaskMetrics.NoStaleSample | src/daemon/sampler.rs:184-216 | whenever the sampler appends, it appends what it observed under the identity current at that moment, and since that was collected the task was neither restarted nor cleared, but for whole cycles of clears |
| TaskMetrics.RunKeepsInv | src/daemon/sampler.rs:100-216 | so in every interleaving of collecting, observing and recording with actions and clears |
| TaskMetrics.EveryAppendIsFresh | src/daemon/sampler.rs:184-216 | in every run from a new task, the recording step either appends such a sample or leaves the entry as it is |
| TaskMetrics.UniformKeptExactly | src/daemon/handle.rs:389-403 | a step lets an entry mix history generations if and only if it is a clearing restart whose effect is not reported while there are samples |
| TaskMetrics.EntriesNeverMix | src/daemon/handle.rs:212-228 | over every run from a uniform entry: it never mixes history generations if and only if no step is such a restart |
| TaskMetrics.LostClearMixes | src/daemon/handle.rs:389-403 | after any such restart, for either reason and in whatever round it came, the sampler's own steps, and a start if the task is down, make the entry hold samples of two histories |
| TaskMetrics.ClearCanBeLost | src/daemon/handle.rs:389-403 | a run from a new task to a restart that loses its clear |
| Scaling.ScalingEvaluator.EvaluatePolicy | src/daemon/scaling.rs:86-191 | one evaluation of one policy: its counters and whether it attempts an action, and no other policy's counters |
| Scaling.ScalingEvaluator.EvaluateScalingPolicies | src/daemon/scaling.rs:78-192 | a pass over distinct policies evaluates each of them once, on its own counters |
| Scaling.StreaksAreRuns | src/daemon/scaling.rs:148-190 | each counter is the number of newest enabled evaluations in a row beyond its threshold since the last attempt, and never both are non-zero |
| Scaling.AttemptNeedsThree | src/daemon/scaling.rs:165-190 | an action is attempted if and only if the policy is enabled and has a value, none was recorded within its cooldown, and the evaluation is at least the third in a row beyond its threshold |
| Scaling.CooldownExactly | src/daemon/scaling.rs:144-147 | the cooldown is over if and only if no action was recorded, or as many seconds have gone by since, or there is no cooldown |
| Scaling.ActionsKeepCooldown | src/daemon/scaling.rs:144-147 | recorded actions of one policy are at least a cooldown apart |

## Left out

- TaskRuns.RowsStaySound: says nothing of a cron generation that starts and ends between two samples, because the sampler never learns of it; one task of one daemon lifetime is modelled.
- RunTransitions.StreamIsBracketed: for one unreplaced runtime, because a label that is removed and added again starts over (`SessionRuntimes.ReplacementResets`).
- LogMirror.EveryRunMirrors: takes log generations to be distinct; the program adds a counter to the clock and does not exclude a collision.
- ProcessTrees.AggregateProcessTree: has no claim when pids repeat or the root is its own ancestor, because the walk does not end in the second case; memory sums do not overflow, and CPU shares are exact numbers instead of rounded ones.
- ConfigSession.WriteThenLoad: for imports without schedules, which is all that the VS Code reader makes (src/config/vscode.rs:129).
- Scaling.ActionsKeepCooldown: for a positive cooldown, because without one there is nothing to keep.
- AuditPayloads.SanitizeIsIdempotent: for payloads whose serialised form fits a 64-bit size; numbers are kept as their literals.
- AuditStores.AuditStore.RecordAudit: does not fill in a missing correlation id or build the search text; the time of a replication mark is reduced to whether it is set.
- AuditReplication.ReplicatedIsSafe: failures of the leader's database are left out, and records of other workers and of the leader itself are arbitrary.
- AuditReplication.PayloadsArriveUnchanged: for records whose payloads are as sanitising leaves them, which `AuditStores.SanitizedIsFixed` gives for payloads that fit a 64-bit size.
- LeaderClusters.LeaderCluster.ForgetWorker: hands back the sender but does not send the farewell message or remove the stored worker; the place that the message takes in the queue is in `LeaderQueues`.
- LeaderClusters.LeaderCluster.UpdateInventory: leaves out node metrics and the stored copy of the inventory.
- AuditReplication.TablesAreClean: gives no size for the leader's rows; the request and response there are the worker's own, and details that an attribution has made longer are bounded only while they fit a 64-bit size.
- TaskRuns.TaskRunTable.FinishTaskRun: leaves out the columns for the exit code, the error text and the times; what is reported for them is in `RunEndings`.
- JsonTexts.StoredReadsBack: for numbers whose literals have only the characters of numbers; white space and surrogate escapes, which are never written, are not read.
- LeaderQueues.UnansweredCanStep: heartbeats and results of a worker may come at any time; that its reader waits while an acknowledgement finds the queue full is left out.
- TaskMetrics.TaskMetricsEntry.Snapshot: leaves out the constant fields that describe intervals and units.
- SessionRuntimes.SessionRuntime.Update: a task's configuration is its auto-start flag and one text; inferring a service from it is left out.
- SchedulerWindows.Scheduler.Round: the cron expression and the local time zone are one parameter that says which seconds match.
- SchedulerWindows.FiresOncePerMatch: for a task that every round lists with one schedule; a round whose session snapshot fails skips the tasks of that session.
- Sequence numbers, start generations and row ids are unbounded; only the history generation wraps.
- The client built from a snapshot that already has lines, the ordering of labels, and rendering.
- YAML text, serde, schema validation of the file, file writing and revision hashes; a mapping is a record of the known keys and a map of the others. Which of several faults is reported first is modelled only for workflow groups.
- Error texts; the three faults of a workflow edge are one.
- Workflow tables, members and the execution of workflow runs.
- Windows process suspension, service detection and log decoding.
- Retries and failures of the database itself, and lookups of the node's own settings between steps.
- Search text building and Unicode case folding; audit columns that are neither sanitised, attributed nor ordered by are one value.
- The store that holds metrics entries and node metrics, and the removal of entries of deleted tasks.
- Fetching remote metrics, and what an autoscaling attempt finds on the target node; both are arguments.
- Start gates, quotas, notifications, webhooks, authentication, HTTP, MCP and the updater.
