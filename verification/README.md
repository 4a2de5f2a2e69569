# Verified model of the naiw-tasks controller

naiw-tasks runs coding agents in disposable containers, one per task. Each task is a folder with a
JSON record, an append-only event journal that the agent writes, a terminal log, and for project
tasks a git worktree. Any number of `list`, `reap`, `finish` and `recover` commands may work on the
same task at once, be killed anywhere, and be answered by Docker in any way. This project models that
machinery in Dafny and proves what it keeps.

`dafny verify dfyconfig.toml` checks everything.

## How it is built

- **Record store** (`TaskStore.dfy`). One step per system call of the locked read-modify-write: lock,
  read, mutate, create temp file, write, fsync, rename, unlock. Processes may raise or be killed
  between any two steps, and the power may fail. The result is that a locked update is one atomic
  step, and every other module uses it as one.
- **Protocol** (`Reconcile.dfy`, `TaskModel.dfy`, `Protocol.dfy`). One state machine for one task:
  `Step` takes a world (record, container, journal, log size, worktree), a process and the
  environment's answer. `Exec` runs any list of events: new processes, steps, kills, journal and log
  growth, container changes. An exception that leaves the record as it is and ends a command (the
  store failing, for instance) is a kill at that point.
  - `Safety.dfy`: invariants and two-state facts over every run of any number of processes.
  - `Uninterrupted.dfy`, `Recovery.dfy`, `Convergence.dfy`: what one process left alone achieves, from
    any state.
  - `Decisions.dfy`: what list, finish, reap and recover decide about a task, as tables of the state before
    and after that do not use the functions the commands compute with.
  - `Overlap.dfy`: lists and reaps that overlap in any way, and when one more reap still closes the task.
  - `Histories.dfy`: one process inside any run: the trace of its own steps, what a teardown leaves when
    others work in between, and how a recover that lost undoes itself.
  - `Races.dfy`: the runs that cross the protocol's boundaries, and the repair of one of them.
  - `Controller.dfy`, `Listing.dfy`: the procedures themselves, as methods that change a task's
    fields in the program's order. Each is proved to be an uninterrupted run of its process (`Alone`),
    so what is proved of the process holds of the procedure.
- **Journal** (`Utf8.dfy`, `Json.dfy`, `Journal.dfy`, `Torn.dfy`). Byte-level writer and incremental
  reader. `Torn.dfy` gives the reader's meaning for any history of successful and torn writes.
- **Ids** (`Ids.dfy`), **redaction** (`Redact.dfy`), **capture** (`Artifacts.dfy`), **clean** (`Clean.dfy`).

## What the proofs found in the code

- A write that moves the offset over a `done` or `fail` event leaves the task not terminal exactly when
  it is not auto-finished and its stored status is `interrupted` or a string the program does not know
  (`Safety.NoSignalLost`, an if-and-only-if). `Races.SignalIsLost` gives the run from every such
  interrupted fresh state, and `Races.ALostSignal` shows that there is one.
- An auto-finished task can lose its event too, to overlapping reaps: it ends stuck, failed with a
  `finish:` reason while the offset is past the event, so that the retry the program promises has
  nothing to read. After any overlapping lists and reaps the task is waiting, closed as the event says,
  or stuck (`Overlap.OverlapLeavesWaitingOrStuck`); one healthy reap closes it if and only if it is not
  stuck (`Overlap.ReapClosesUnlessStuck`), and once stuck with no process left it stays so
  (`Overlap.StuckForGood`, `Overlap.StuckFinishKeepsFailed`). It gets stuck at exactly three kinds of
  step (`Overlap.GetsStuckExactlyThen`), each with a run: a failed teardown's write after another reap
  advanced the offset (`Races.StuckByLateFailure`); a reap's advance after another one's teardown failed
  (`Races.StuckByAdvance`); and the offset write of a list that read the task closed as failed before
  another reap's teardown failed, which its compare-and-set on offset and status cannot see
  (`Races.StuckByList`).
- The reader raises instead of reporting a line when the line's bytes decode and either loading its
  text meets a limit of the JSON library (a numeral with more digits than the interpreter converts,
  or arrays and objects nested deeper than it recurses) before a syntax error, or the text is an object
  whose `kind` is an array or object. On the JSON fragment modelled here these are all the cases
  (`Journal.CrashIffLineRaises`, lifted to whole tails by `Journal.TailRaisesIff`);
  `Journal.LinesThatRaise` gives a line for each, under any limits.
- One consequence needs no malformed input at all: as many appends in a row cut after `{"ts":` as the
  library has levels make the next whole event unreadable and the reader raise
  (`Torn.CutsMakeTheReaderRaise`).
- The id patterns end in `$`, which in Python also matches before a final newline. So an alias with a
  newline at its end passes the alias check, and then no id for it ever passes the id check
  (`Ids.IdFits`, `Ids.NewlineAliasIsAcceptedButUseless`).
- teardown's last write does not look at the record again. So a teardown that returns leaves a
  container under the task's name exactly when a recover started one after the teardown's own NotFound
  lookup and that container is still there (`Histories.TerminalWriteLeavesContainerIff`, over every
  run). `Races.FinishRacingRecoverLeavesContainer` gives the run from every interrupted generic task
  without a container; the next finish repairs it (`Races.NextFinishRepairs`).
- The stored offset moves back exactly when a reap's last step carries a smaller one, and then the task
  is closed already (`Safety.OffsetMovesBackIff`). `Races.OffsetMovesBack` gives the run of two reaps
  with an event appended between their tails, and `Races.AnOffsetMovesBack` shows that there is one.

## Model

| member | source | states |
|---|---|---|
| TaskStore.UpdatesAreSequential | src/naiw_tasks/naiw_tasks/store.py:70-114 | after any interleaving of updates and reads with kills, exceptions and power loss, the visible record is whole and synced and equals the starting record with the logged mutators applied one by one in the order their locks were granted, no process twice |
| TaskStore.OutcomeMatchesLog | src/naiw_tasks/naiw_tasks/store.py:77-114 | an update that returned is in the log once and returned the replay up to itself; one that raised or has not published is not in the log |
| TaskStore.NoLostUpdate | src/naiw_tasks/naiw_tasks/store.py:97-105 | no step but a power loss takes a published update away, and only the rename publishes one |
| TaskStore.ReadsSeeWholeRecords | src/naiw_tasks/naiw_tasks/store.py:48-59 | a finished read under the shared lock returned a whole record that the log passed through, no older than the latest when the read was started: it sees every update published by then |
| TaskStore.NoTempLeftBehind | src/naiw_tasks/naiw_tasks/store.py:98-110 | in every run a process that returned, published or raised has no temp file left; only a killed one may |
| TaskStore.UndisturbedUpdateGoesThrough | src/naiw_tasks/naiw_tasks/store.py:70-114 | from any reachable state with the lock free, an update left alone publishes what its mutator makes of the latest record, returns it, releases the lock and leaves no temp file |
| TaskStore.MetaDir.UpdateTask | src/naiw_tasks/naiw_tasks/store.py:70-114 | the procedure: new record and return value are the mutator's result; on a raising mutator or a failure at any of four stages the record and the directory are as before |
| Reconcile.TransitionsAreListEdges | src/naiw_tasks/naiw_tasks/reconcile.py:68-194 | `transitioned` holds exactly when the status differs, and every change is an edge of the list graph, for arbitrary status and container strings |
| Reconcile.ListEdgesAreTaken | src/naiw_tasks/naiw_tasks/reconcile.py:109-194 | each edge of that graph is taken for some container and event |
| Reconcile.ComputedIsStable | src/naiw_tasks/naiw_tasks/reconcile.py:68-194 | evaluating the result again against the same container without an event changes nothing |
| Reconcile.TerminalEventDecides | src/naiw_tasks/naiw_tasks/reconcile.py:109-181 | a done or fail event decides the status whatever the container does, exactly from created, running and waiting |
| Decisions.ListDecides | src/naiw_tasks/naiw_tasks/reconcile.py:68-194 | what an uninterrupted list, or a reap with nothing to reap, makes of a task, by tables apart from the code's functions: running or waiting becomes interrupted when the container exited with 0, is absent or stalled, failed when it exited otherwise, waiting for a running container with a wait unread; created becomes running or failed, with the crash reason when the container is absent; a closing event decides the status and brings its reason, or is left to reap with everything it needs; the offset, log mark, error log and update time, and nothing else changes |
| Decisions.SilenceChangesNothing | src/naiw_tasks/naiw_tasks/list_cmd.py:430-444 | when Docker does not answer or the journal cannot be read, the list ends with the exception and nothing has changed |
| Decisions.StaleIffOvertaken | src/naiw_tasks/naiw_tasks/list_cmd.py:240-283 | a locked write is reported stale exactly when it finds another offset or status than was read, and then it raises the log mark at most and starts no teardown |
| Safety.FreshOk | src/naiw_tasks/naiw_tasks/lifecycle.py:422-430 | the state that start leaves meets the invariant, from which the results over runs start |
| Safety.RunInvariant | src/naiw_tasks/naiw_tasks/list_cmd.py:240-266 | over every run from a state that meets it: offset 0 or just past a newline and within the journal; high-water mark at most the log size; recovery count equal to the history's length, entries numbered from one |
| Safety.RunOnlyGrows | src/naiw_tasks/naiw_tasks/lifecycle.py:1082-1102 | between any two states of a run: terminal stays terminal, finished_at is write-once, the high-water mark and recovery history only grow, a container that is gone never returns |
| Safety.StatusChangesAreEdges | src/naiw_tasks/naiw_tasks/list_cmd.py:240-266 | every status change on disk is an edge of one fixed graph: list's edges by a list write, interrupted to running by recover's commit, into a terminal status by teardown; the terminal set is never left |
| Safety.ListMutatorEdge | src/naiw_tasks/naiw_tasks/list_cmd.py:240-266 | list's write changes the status of whatever record it finds under the lock only along a list edge |
| Safety.CountIsRecoveries | src/naiw_tasks/naiw_tasks/lifecycle.py:862-891 | the recovery count grows by the number of interrupted-to-running changes in the run |
| Safety.LogNeverReportedShrunk | src/naiw_tasks/naiw_tasks/list_cmd.py:173-188 | in no run does a list find the log smaller than the mark it read |
| Safety.NoSignalLost | src/naiw_tasks/naiw_tasks/list_cmd.py:190-266 | a write that moves the offset over a batch ending in done or fail finds the task terminal or closes it with that event's status, and a fail event's reason, in the same write; it does neither exactly for tasks that are not auto-finished and are interrupted or of unknown status |
| Safety.OffsetMovesBackIff | src/naiw_tasks/naiw_tasks/list_cmd.py:336-341 | in any run the offset moves back exactly at a reap's advance that carries a smaller offset, and then the task is closed already |
| Histories.LostRecoverUndoesItself | src/naiw_tasks/naiw_tasks/lifecycle.py:847-908 | in any run, a recover that started a container and ran on to NotInterrupted or RecoverFailed wrote the record in none of its steps since and asked for that container's removal; if the removal was answered, the container is in no later state |
| Safety.RolledBackContainerStaysGone | src/naiw_tasks/naiw_tasks/lifecycle.py:893-908 | once that removal succeeded, the container is absent in every later state of every run |
| Uninterrupted.EveryProcessEnds | src/naiw_tasks/naiw_tasks/lifecycle.py:918-1206 | a process that is not killed ends within its rank's number of steps, whatever it is answered |
| Uninterrupted.TeardownTrace | src/naiw_tasks/naiw_tasks/lifecycle.py:948-1104 | an uninterrupted teardown, whatever Docker and git answer: one that returns did NotFound lookup, capture, worktree removal if any, terminal write in that order; each handled failure ends failed with a `finish:` reason; the worktree is untouched unless the lookup said NotFound |
| Histories.TeardownTraceInAnyRun | src/naiw_tasks/naiw_tasks/lifecycle.py:948-1104 | the same of one teardown's own steps in any run, whatever other processes and the container do in between: it changes the worktree only after its own NotFound lookup and capture, and it ends cleanly in the target status or failed with a `finish:` reason |
| Histories.TerminalWriteLeavesContainerIff | src/naiw_tasks/naiw_tasks/lifecycle.py:973-1104 | in any run, a teardown about to write its terminal status had a NotFound lookup of its own, since when its process was neither killed nor started anew, and a container is there after the write exactly when a recover started one since that lookup and it is still there |
| Uninterrupted.HealthyTeardown | src/naiw_tasks/naiw_tasks/lifecycle.py:939-1104 | with Docker healthy a teardown ends with no container and the terminal write, or failed when git failed |
| Uninterrupted.FinishRepairs | src/naiw_tasks/naiw_tasks/lifecycle.py:1152-1206 | from any state whatever one uninterrupted finish with Docker healthy ends terminal with no container; a terminal status is preserved unless git fails; nothing happens exactly when terminal, absent and no flag |
| Decisions.FinishActsIff | src/naiw_tasks/naiw_tasks/lifecycle.py:1152-1186 | however it is answered, a finish leaves the task alone exactly when it is terminal, neither forced nor flagged, and the probe does not find the container, absent or Docker silent; otherwise it tears down |
| Decisions.FlagThenPolicyThenReply | src/naiw_tasks/naiw_tasks/lifecycle.py:568-594 | which policy wins in a healthy finish, told by the worktree: a flag decides whatever is stored, then a stored keep or delete, and `ask` keeps it exactly when there is a terminal and the reply is y or yes; a generic task, or one without path or repository, loses nothing |
| Decisions.ReapNeverAsks | src/naiw_tasks/naiw_tasks/list_cmd.py:304-311 | a healthy reap that closes the task removes a known worktree unless keep is stored; any other reap leaves it alone |
| Decisions.TeardownWorktree | src/naiw_tasks/naiw_tasks/lifecycle.py:1017-1060 | the same of any teardown with Docker healthy, git failing or not: the worktree goes exactly when it is known, to be removed, and git removes it |
| Decisions.FailsIffGitRefuses | src/naiw_tasks/naiw_tasks/lifecycle.py:1048-1104 | with Docker healthy a teardown fails exactly when git was asked for a worktree that is there and refused, and then the record carries git's message behind `finish: `; otherwise it ends in the target status and a reap's offset has moved |
| Decisions.StopsBeforeRemoving | src/naiw_tasks/naiw_tasks/lifecycle.py:962-966 | teardown and recover stop the container before they remove it by force: one that is stopped and then not removed stands there exited |
| Decisions.RollbackStopsFirst | src/naiw_tasks/naiw_tasks/lifecycle.py:893-908 | so does the roll-back of a recover that lost |
| Uninterrupted.TailAtEnd | src/naiw_tasks/naiw_tasks/events_tail.py:86-114 | with the journal at rest a second tail reads nothing and keeps the offset |
| Uninterrupted.ListReachesFixpoint | src/naiw_tasks/naiw_tasks/list_cmd.py:236-274 | with journal, log and container at rest, a second list leaves the whole world, updated_at included, as the first did |
| Uninterrupted.ReapAlone | src/naiw_tasks/naiw_tasks/list_cmd.py:190-341 | what one healthy reap leaves: its locked write, then the teardown and the offset advance exactly when an event is pending |
| Uninterrupted.DryReapPredicts | src/naiw_tasks/naiw_tasks/list_cmd.py:192-212 | a dry reap of a task changes nothing and counts it exactly when a healthy real reap from the same state reaps it |
| Uninterrupted.DryReapChangesNothing | src/naiw_tasks/naiw_tasks/list_cmd.py:203-274 | a dry reap or list of a task leaves the world as it was, however it is answered and wherever it stops |
| Recovery.RecoverAlone | src/naiw_tasks/naiw_tasks/lifecycle.py:682-908 | one uninterrupted recover refuses a task that is not interrupted and touches nothing; otherwise it commits (running, one more recovery with a correctly numbered entry, whose contents RecoverRecords gives, new container up, offset and high-water mark kept) or fails with the record as it was; with Docker healthy and the bind mounts accepted a failed one leaves no container, and with the store healthy too it commits |
| Decisions.RecoverRecords | src/naiw_tasks/naiw_tasks/lifecycle.py:716-891 | what a recover that commits has written, however it was answered: the new entry names the old container and its exit code exactly when it was there and Docker answered, the images before and after, the git state found for a project task with a worktree, and the commit's time; the banner is in the log if it could be written; nothing else changed |
| Convergence.ReapHistory | src/naiw_tasks/naiw_tasks/list_cmd.py:229-341 | with the journal at rest: after any history of sequential reaps killed at any step or answered in any way, the task is still waiting with its offset, or closed as its event says |
| Convergence.HealthyReapCloses | src/naiw_tasks/naiw_tasks/list_cmd.py:298-347 | one healthy reap then closes it: status and reason of the last event, no container, offset after the last complete line |
| Convergence.ClosedIsFinal | src/naiw_tasks/naiw_tasks/list_cmd.py:132-139 | a further reap changes nothing and reaps 0 |
| Convergence.ReapConverges | src/naiw_tasks/naiw_tasks/list_cmd.py:298-347 | the three together, for reaps one after another, with the journal at rest and the event already there when the first reap starts, from an auto-finished task that is not terminal or was left failed by a teardown |
| Convergence.ReapAfterAnyRun | src/naiw_tasks/naiw_tasks/list_cmd.py:132-139 | after any run at all, when the lines still unread end in done or fail: one healthy reap left alone closes a task that may still be closed as that event says; on a closed task it only moves the offset and the high-water mark |
| Overlap.OverlapLeavesWaitingOrStuck | src/naiw_tasks/naiw_tasks/list_cmd.py:229-341 | with the journal at rest and a closing event unread at the start: after any overlapping lists and reaps, killed at any step and answered in any way, the task is waiting or closed as the event says, or else stuck |
| Overlap.GetsStuckExactlyThen | src/naiw_tasks/naiw_tasks/list_cmd.py:245-258 | a task becomes stuck exactly at a failed teardown's write that finds the offset past the event, or at an offset write over a record that another teardown has marked failed |
| Overlap.ReapClosesUnlessStuck | src/naiw_tasks/naiw_tasks/list_cmd.py:312-341 | after any such history one healthy reap closes the task as its event says if and only if it is not stuck; on a stuck one it changes nothing but the log mark and reaps nothing |
| Overlap.StuckForGood | src/naiw_tasks/naiw_tasks/list_cmd.py:317-319 | a stuck task whose processes have all ended stays as it is, whatever further lists and reaps do |
| Overlap.StuckFinishKeepsFailed | src/naiw_tasks/naiw_tasks/lifecycle.py:1188-1196 | a healthy finish of a stuck task, forced or not, keeps it failed |
| Convergence.FailEventsHaveReasons | src/naiw_tasks/naiw_tasks/events_tail.py:58-61 | a batch read by the real line check never ends in a fail event without a reason |
| Races.FinishRacingRecoverLeavesContainer | src/naiw_tasks/naiw_tasks/lifecycle.py:1082-1104 | from every interrupted generic task without a container there is a run where finish and recover both end normally and the completed task's container runs |
| Races.StuckByLateFailure | src/naiw_tasks/naiw_tasks/lifecycle.py:973-986 | from every such generic task without a container: two reaps, the slow one's lookup unanswered after the fast one advanced; both end and the task is stuck |
| Races.StuckByAdvance | src/naiw_tasks/naiw_tasks/list_cmd.py:336-341 | the same with the failure between the fast one's closing write and its advance |
| Races.StuckByList | src/naiw_tasks/naiw_tasks/list_cmd.py:245-258 | with a fail event: a list that read the closed record moves the offset over the failed one |
| Races.AStuckTask | src/naiw_tasks/naiw_tasks/list_cmd.py:298-341 | such a run exists from a fresh task for every done event that can be written |
| Races.SignalIsLost | src/naiw_tasks/naiw_tasks/reconcile.py:92-94 | from every fresh interrupted task that is not auto-finished and whose journal ends in done or fail, one list consumes the event and leaves the task interrupted |
| Races.ALostSignal | src/naiw_tasks/naiw_tasks/list_cmd.py:240-266 | such a run exists for every done event that can be written |
| Races.OffsetMovesBack | src/naiw_tasks/naiw_tasks/list_cmd.py:336-341 | two reaps with a closing event appended between their tails: the slower one carries the offset back |
| Races.AnOffsetMovesBack | src/naiw_tasks/naiw_tasks/list_cmd.py:336-341 | such a run exists for every done event that can be written |
| Races.NextFinishRepairs | src/naiw_tasks/naiw_tasks/lifecycle.py:1164-1186 | the next uninterrupted finish removes that container and keeps the status |
| Controller.TaskHost.ReconcileOne | src/naiw_tasks/naiw_tasks/list_cmd.py:142-360 | one task's reconciliation, statement by statement, is an uninterrupted run of the list process |
| Controller.TaskHost.TeardownAndAdvance | src/naiw_tasks/naiw_tasks/list_cmd.py:304-341 | the inline teardown, and the offset advance only after it returned |
| Controller.TaskHost.TeardownAndMark | src/naiw_tasks/naiw_tasks/lifecycle.py:918-1106 | teardown is an uninterrupted run of its process and leaves a trace as TeardownTrace says |
| TaskModel.TerminalWriteReason | src/naiw_tasks/naiw_tasks/lifecycle.py:1087-1101 | the precedence of reasons: a given one wins; without one, completing drops a teardown error and nothing else, failing and cancelling keep what is there; and which terminal records the automatic retry may still open |
| TaskModel.RetryAfterFailure | src/naiw_tasks/naiw_tasks/lifecycle.py:1087-1101 | a teardown that failed and then went through leaves the record of one that went through at once exactly when it completes the task or has a reason to give; otherwise only the reason differs |
| TaskModel.FinishTimeIsWrittenOnce | src/naiw_tasks/naiw_tasks/lifecycle.py:1085 | later terminal writes, with failed ones in between, keep the first finish time |
| Controller.TaskHost.FinishTask | src/naiw_tasks/naiw_tasks/lifecycle.py:1152-1206 | finish is an uninterrupted run of its process |
| Controller.TaskHost.RecoverTask | src/naiw_tasks/naiw_tasks/lifecycle.py:701-908 | recover is an uninterrupted run of its process |
| Listing.Run | src/naiw_tasks/naiw_tasks/list_cmd.py:435-444 | the loop over tasks: each task is left as its own uninterrupted reconciliation leaves it, the totals are the sums, and an unreadable journal stops the loop with later tasks untouched |
| Listing.DryRunChangesNothing | src/naiw_tasks/naiw_tasks/list_cmd.py:435-444 | a dry run over any tasks leaves every one as it was, unreadable journals and failing calls included |
| Listing.DryRunPredictsRun | src/naiw_tasks/naiw_tasks/list_cmd.py:435-444 | over the whole store a dry reap changes no record, error log or container, and its would_reap equals the reaped count of a healthy real reap |
| Journal.TailEvents | src/naiw_tasks/naiw_tasks/events_tail.py:66-147 | the reader's branches and loop: a missing journal keeps the offset, what is no regular file or cannot be opened is reported once and moves nothing, a shrunk file is read from its start, and otherwise the result is a tail of the bytes |
| Journal.ScanLines | src/naiw_tasks/naiw_tasks/events_tail.py:116-145 | the loop over complete lines computes Scan, or raises with it |
| Journal.SplitIsExact | src/naiw_tasks/naiw_tasks/events_tail.py:105-114 | lines with their newlines and the fragment make up the chunk; no piece has a newline |
| Journal.ConsumedIsLongest | src/naiw_tasks/naiw_tasks/events_tail.py:105-114 | the consumed part is the longest prefix that is empty or ends in a newline |
| Journal.ScanIsTotalUnlessCrash | src/naiw_tasks/naiw_tasks/events_tail.py:116-145 | for any line check, the loop returns exactly when no line's check raises, and then valid and malformed together count every line once |
| Journal.AcceptedIff | src/naiw_tasks/naiw_tasks/events_tail.py:41-63 | in the modelled JSON, a line is let through as an event exactly when it decodes and loads to an object naming that kind, schema version 1, a timestamp that passes the test, and an object as payload, with a non-empty reason for fail and wait; the event carries what is there |
| Journal.RejectedForFirstFault | src/naiw_tasks/naiw_tasks/events_tail.py:119-145 | in the modelled JSON, a line is reported malformed, with that very line, for the first check it fails and no other |
| Journal.CrashIffLineRaises | src/naiw_tasks/naiw_tasks/events_tail.py:119-141 | in the modelled JSON, the check of a line raises exactly when the bytes decode and loading the text meets a limit before a syntax error, or the text is an object with an array or object as kind |
| Journal.TailRaisesIff | src/naiw_tasks/naiw_tasks/events_tail.py:116-145 | in the modelled JSON, a tail of given bytes from a given offset raises exactly when one of its complete lines is such a line |
| Journal.LinesThatRaise | src/naiw_tasks/naiw_tasks/events_tail.py:131-135 | four lines that raise under any limits: object as kind, array as kind, numeral one digit too long, one level too deep |
| Journal.ShortLineRaisesForKindOnly | src/naiw_tasks/naiw_tasks/events_tail.py:131-141 | a line no longer than either limit raises only for its kind |
| Journal.AcceptedEventsAreWithin | src/naiw_signal/naiw_signal/writer.py:33-39 | with at least 4096 digits and levels, every event the writer accepts is within the reader's limits |
| Journal.SignalsAreWithin | src/naiw_common/naiw_common/events.py:33-53 | the events of the signal commands are within any limits that admit one digit and two levels |
| Json.RaisesIffBeyond | src/naiw_tasks/naiw_tasks/events_tail.py:131-135 | where a value can be read, reading it raises exactly when it has a numeral or a nesting beyond the limits |
| Journal.TailEndsAtBoundary | src/naiw_tasks/naiw_tasks/events_tail.py:105-114 | a tail from a line boundary ends at one, not before where it started |
| Journal.ScheduleAgreesWithOneTail | src/naiw_tasks/naiw_tasks/events_tail.py:80-147 | for an append-only journal any schedule of tails carrying the offset returns together what one tail of the final file returns, final offset included |
| Journal.EventFile.AppendEvent | src/naiw_signal/naiw_signal/writer.py:25-64 | success means the whole line was appended and synced; every failure leaves a prefix of the line, an oversized one nothing |
| Journal.BodyHasNoNewline | src/naiw_signal/naiw_signal/writer.py:20-22 | escaping keeps byte 0x0A out of the serialised event |
| Journal.ClassifyWritten | src/naiw_tasks/naiw_tasks/events_tail.py:41-63 | the reader takes a written line within its limits back to the same event |
| Journal.TailUndoesAppends | src/naiw_signal/naiw_signal/writer.py:20-51 | tailing appended events returns exactly those, in order, nothing malformed, a torn fragment at the end unread |
| Json.LoadUndoesPrint | src/naiw_signal/naiw_signal/writer.py:20-22 | loading printed JSON gives the value back |
| Json.LastMemberCounts | src/naiw_tasks/naiw_tasks/events_tail.py:132 | of several members with one key the last one counts |
| Utf8.DecodeUndoesEncode | src/naiw_signal/naiw_signal/writer.py:22 | strict decoding undoes encoding for every text |
| Utf8.EncodeUndoesDecode | src/naiw_tasks/naiw_tasks/events_tail.py:121 | the strict decoder accepts nothing but encodings |
| Utf8.NewlineOnlyFromNewline | src/naiw_signal/naiw_signal/writer.py:22 | byte 0x0A occurs in encoded text only for a newline character |
| Torn.GluedLineIsMalformed | src/naiw_tasks/naiw_tasks/events_tail.py:119-135 | an event line written behind a torn fragment is reported malformed, as bad UTF-8 or bad JSON, unless a limit of the JSON library is met in it first, and then the reader raises |
| Torn.SpoiltStays | src/naiw_signal/naiw_signal/writer.py:47-54 | a torn line behind a torn fragment keeps it spoilt |
| Torn.AnyHistoryIsRead | src/naiw_tasks/naiw_tasks/events_tail.py:105-145 | after any history of appends answered in any way, a read returns exactly when no glued line meets a limit, and then it returns exactly the events whose lines were whole and on a clean file, each glued line reported once, the last fragment unread |
| Torn.CutsMakeTheReaderRaise | src/naiw_signal/naiw_signal/writer.py:47-54 | a history that does meet it: as many appends cut after the first key as the library has levels, then a whole one |
| Torn.SpoiltAtMostTorn | src/naiw_signal/naiw_signal/writer.py:47-54 | at most one event is lost per torn write: whole lines not read are no more than torn ones |
| Ids.TaskIdParses | src/naiw_tasks/naiw_tasks/ids.py:138-145 | alias and number are recovered from the id at its last dash, whatever dashes the alias has |
| Ids.IdFits | src/naiw_tasks/naiw_tasks/ids.py:17-21 | an accepted alias gives an accepted id exactly when it has no final newline and the id is at most 64 long; every number up to 999 fits |
| Ids.NewlineAliasIsAcceptedButUseless | src/naiw_tasks/naiw_tasks/ids.py:39-49 | a concrete alias that is accepted and never yields an id |
| Ids.AcceptedNames | src/naiw_tasks/naiw_tasks/ids.py:17-22 | an alias is a label of small letters, digits and dashes, no dash in front, at most 60 long, an id one of at most 64, each with or without a newline behind it |
| Ids.StripDropsSpaceOnly | src/naiw_tasks/naiw_tasks/ids.py:128-132 | stripping a counter text drops white space at both ends and nothing else |
| Ids.Candidate | src/naiw_tasks/naiw_tasks/ids.py:136-143 | the number chosen is the least one above the counter and above every number found |
| Ids.IdStore.AllocateTaskId | src/naiw_tasks/naiw_tasks/ids.py:105-151 | the allocator: an id is returned exactly when alias, counter text (digits, stripped), id and write are good, and then counter and id are published above counter and folders; otherwise counters are unchanged |
| Ids.CandidateIsAbove | src/naiw_tasks/naiw_tasks/ids.py:136-143 | in any reachable state the scan picks a number above the counter and every listed folder |
| Ids.IdsAreNeverReused | src/naiw_tasks/naiw_tasks/ids.py:76-151 | no two ids returned in a run are equal, over all interleavings for all aliases, kills and failed writes, whatever folder names each scan lists |
| Redact.MatchEndIsLongest | image/etc/naiw/redact.sed:2-8 | the scanner's test at one position finds a match exactly when one exists, and the longest |
| Redact.SpansAreLeftmostLongest | image/etc/naiw/redact.sed:2-8 | one global substitution picks the leftmost-longest matches |
| Redact.PassReplacesLeftmostLongest | image/etc/naiw/redact.sed:2-8 | leftmost-longest matching determines the output, and a pass produces it |
| Redact.MatchComesFromInput | image/etc/naiw/redact.sed:2-8 | every match in a pass's output is a match of the input at a place the pass did not replace |
| Redact.PassKeepsFree | image/etc/naiw/redact.sed:2-8 | a pass removes every match of its own pattern and creates none of any other |
| Redact.RedactLeavesNoMatch | image/etc/naiw/redact.sed:2-8 | after the seven passes no substring matches any of the seven patterns |
| Redact.RedactUnchangedIffFree | image/etc/naiw/redact.sed:2-8 | a line is unchanged exactly when nothing in it matches, and the filter is idempotent |
| Redact.PatternsAreSecrets | image/etc/naiw/redact.sed:2-8 | the seven patterns are exactly the kinds of secret spelled out: GitHub tokens, the two kinds of sk- keys, bearer tokens, AWS key ids |
| Redact.NoSecretIsLeft | image/etc/naiw/redact.sed:2-8 | the filtered line holds none of them, and a line is changed exactly when it holds one |
| Redact.AnthropicKeyVanishesWhole | image/etc/naiw/redact.sed:5-6 | the order of the passes: a line that is one long key becomes the mark, even where a shorter kind of key is part of it |
| Artifacts.Bundle.ReplicateOutputTree | src/naiw_tasks/naiw_tasks/artifacts.py:37-117 | wipe, walk and link-or-copy leave exactly the mirrored tree, whatever the destination held |
| Artifacts.Bundle.CopyFile | src/naiw_tasks/naiw_tasks/artifacts.py:47-117 | one file: only regular ones are linked, with the copy fallback and its failures |
| Artifacts.MirrorIsRealPart | src/naiw_tasks/naiw_tasks/artifacts.py:41-117 | the mirror equals the source's real directories and regular files exactly when every regular file arrives whole |
| Artifacts.MirrorByAnswer | src/naiw_tasks/naiw_tasks/artifacts.py:47-117 | entry by entry what the mirror holds, by how the link and the copy behind it were answered |
| Clean.DataRoot.EnumerateCandidates | src/naiw_tasks/naiw_tasks/clean.py:103-158 | the loop finds exactly the finished tasks at least as old as the threshold, each once |
| Clean.DataRoot.EnumerateOrphans | src/naiw_tasks/naiw_tasks/clean.py:168-193 | exactly the labelled containers without a folder; none when Docker does not answer |
| Clean.DataRoot.RemoveTasks | src/naiw_tasks/naiw_tasks/clean.py:300-332 | the removal loop: folders left, failure count, and the repositories pruned, those of the removed tasks in order |
| Clean.DataRoot.PruneOrphans | src/naiw_tasks/naiw_tasks/clean.py:336-365 | the prune loop's result and failure count |
| Clean.DataRoot.Run | src/naiw_tasks/naiw_tasks/clean.py:196-367 | the whole command, with its early exits, the second orphan scan, the exit code and the repositories pruned |
| Clean.CleanReclaimsExactly | src/naiw_tasks/naiw_tasks/clean.py:300-367 | a confirmed clean in which nothing fails leaves exactly the tasks that are no candidates and the containers that are no orphans, all unchanged, exit code 0 |
| Clean.CleanTouchesOnlyTargets | src/naiw_tasks/naiw_tasks/clean.py:300-367 | whatever fails, only candidates and orphans are touched, and exit code 0 after both scans means none remain |
| Clean.CleanSparesTheRest | src/naiw_tasks/naiw_tasks/clean.py:103-367 | spelled out without the selection's names, whatever fails: no folder, an unreadable record, an unfinished task, and a finished one whose time is missing, unreadable or less than the threshold ago are left as they are, and so are containers without a label or with an entry under it; without a confirmation everything is; in a confirmed run every other task goes or the exit code says so, and when nothing fails all go |
| Clean.ThresholdIsReached | src/naiw_tasks/naiw_tasks/clean.py:143-146 | a finished task exactly as old as the threshold is not spared |

## Left out

- `start`: only the record it leaves (`Protocol.Fresh`) is used. Runs begin when start has ended, because its two writes are unconditional; lists that were at work before are covered by starting from any state that meets the invariant.
- Docker, git, the clock and the operator's terminal: each call's outcome is an arbitrary answer to a step. Timestamps, digests and messages are opaque text.
- Looking a container up by label (list) and by name (finish, recover) is taken to find the same container. One listing call for all tasks is one look per task.
- Inside the protocol the journal is a regular file and a missing one reads as empty; `Journal.TailEvents` has the refusals. Symbolic-link and permission checks elsewhere are not modelled.
- Truncation of the journal or the log: the runs assume both only grow. `Journal.Tail` itself has the restart-from-zero branch.
- JSON: compact text of strings, natural numbers, arrays and objects. The limits on digits and nesting are parameters. Building the diagnostic of a rejected value is taken not to raise. White space, surrogate escapes (section 7 of RFC 8259), literals, and numerals with a sign, fraction or exponent are not read, so `true` as a schema version, which Python takes for 1, is not covered.
- Journal.CrashIffLineRaises: says nothing of the program on lines outside that fragment, where a negative numeral with too many digits raises as well.
- Journal.TailRaisesIff: the same.
- Journal.AcceptedIff: the same fragment; a version `1.0` or `true`, which Python takes for 1, is outside it.
- Journal.RejectedForFirstFault: the same fragment.
- The timestamp test is an arbitrary predicate. Folder suffixes are ASCII digits.
- Ids.IdStore.AllocateTaskId: a counter text with a sign or underscores, which Python's int also takes, counts as an error; the program itself writes digits only.
- Power loss in the protocol: the store's rename can be undone by one (`TaskStore` has it, and then an earlier whole record is back). So terminal staying terminal, the write-once finish time and the other facts between two states of a run hold for runs without power loss; the invariant of single states starts anew from the record that is back, as far as that record's offset and mark fit the journal and log.
- That a locked update is one atomic step of the protocol is taken over from `TaskStore` in words: the two machines are not composed.
- Redaction ranges are those of the C locale.
- Bytes of two writers mixed within one line: each O_APPEND write lands in one piece, possibly cut short.
- Listing output: filters, sorting, rendering and the notes other than "log shrunk".
- Schema-version refusal and missing records in `read_task`.
- Unknown finish_policy strings and end-of-input at the prompt, which raise. The typed reply is taken as already stripped and in lower case.
- Secrets, volumes and labels of a new container: a refused bind mount is a refused start. What git reports of the worktree is opaque text.
- Artifacts.Bundle.ReplicateOutputTree: the wipe of the old capture is taken to succeed; the program ignores its errors, and then old files would stay.
- A worktree prune that cannot start git: the program only logs it.
- That the stored status matches the container: list's compare-and-set cannot see a change and change back.
- Config and project files, formatting, disk usage, attach, output, startup checks, compose files and images.
