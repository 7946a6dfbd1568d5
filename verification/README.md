# Verified models of Illo's concurrency, persistence and bookkeeping

A Dafny model of the parts of the Illo platform whose correctness rests on interleaving, persistence under
failure, bookkeeping or replay. Run `dafny verify dfyconfig.toml` here to verify all of it.

| file | what it models |
|---|---|
| `BlockingExecutor.dfy` | the bounded executor for synchronous tools: permits, threads, start flag and two layers of shielded cancellation, as an interleaved transition system, and the invocation probe |
| `Captions.dfy`, `SessionHealth.dfy`, `Session.dfy` | the meeting bot: rolling caption buffer, health deadlines, session lifecycle with one active slot |
| `Deadman.dfy` | the external watcher: a pure decision inside a post-then-persist protocol in which either step may fail, with or without taking effect |
| `WorkspaceInventory.dfy`, `WorkspaceReclamation.dfy` | the stack-driven tree walk and the bounded collection of old workspaces while the file system changes |
| `RateLimit.dfy` | the sliding-window limiter (429 responses, section 4 of RFC 6585; delay in seconds, section 10.2.3 of RFC 9110) |
| `MappingExpressions.dfy`, `PathTemplate.dfy` | the mapping language: validator, evaluator, the decision trees that expressions mean, a negation law, brace templates |
| `AlertResolution.dfy` | harvesting human judgments with a timestamp watermark |
| `LaunchHandoffs.dfy` | the life of idempotency keys |
| `Chantiers.dfy` | merging references and records, supersession links, matching |
| `Ordering.dfy`, `Options.dfy` | stable sorting and the orders used for ranking; optional values |

The pattern is the same throughout. Pure functions specify one step; a fold over a list of steps stands for any run;
lemmas state what every run keeps. Where the code changes objects in place, a class does too, and each of its methods is
proved to have the effect of the specification function. Whatever the code cannot control (threads, clocks, the network,
the file system, other writers) is an argument, and the statements hold for all of its values.

## Where the code and its own words differ

- `meetbot/captions.py:35-41` says that a new identity commits the prior line. It does so only when the text differs
  (lines 76-77): `Captions.NewNodeCommitsIffTextDiffers`.
- `ops/external_deadman/watcher.py:3-7` and `476-478` promise at-least-once notices, never a lost one. When a notice is
  delivered and its state is not recorded and the observation then flips, the matching recovery or the next alarm is
  never posted: `Deadman.UnrecordedAlarmHasNoRecovery`, `Deadman.UnrecordedRecoveryHidesNextOutage`. While the
  observation does not flip, delivery is at least once.
- `brain/systems/chantiers.py:180` says that no display title is discarded. The first reference of an identity decides:
  titles survive exactly under `Chantiers.TitlesSurviveExactly`, and `Chantiers.LaterTitleIsLost` is a merge that drops one.
- `meetbot/session.py:51-52` refuses a second meeting. After an interrupted clean-up two records can look active:
  `Session.AbandonedExactlyThere` says when, `Session.InterruptedHandlerLeavesTwoActive` shows a run.
- `brain/platform/async_io.py:41-42` keeps `BlockingInvocationCancelled` for calls that have settled. A caller may be told of
  a plain cancellation although the function ran; `BlockingExecutor.CallerPlainCancelHidesExactly` says when.
- `brain/app/api/deps.py:62-63` reads the first element of a list that is empty when a configured limit is not positive:
  `RateLimit.CrashesExactlyWithoutLimits`.

## Model

| member | source | states |
|---|---|---|
| `BlockingExecutor.PermitsMatchUnsettledAdmissions` | brain/platform/async_io.py:142-148 | Over every interleaving, permits taken equal the admitted calls that have not settled, never exceed workers plus queue, and every queued or running function belongs to one of them |
| `BlockingExecutor.FinishedCallsLeaveNothingBehind` | brain/platform/async_io.py:171-175 | When `_run_tool_blocking` or `invoke_maybe_async` ends, on any path, its function is neither queued nor on a thread, its permit is back and its probe entry is gone |
| `BlockingExecutor.SettlementTellsWhetherItRan` | brain/platform/async_io.py:152-170 | A settled call ran its function exactly once to completion, or never, now and for ever, and the way it ended says which; the one ambiguity is a function that raises a cancellation itself |
| `BlockingExecutor.PlainCancelMeansNeverRun` | brain/platform/async_io.py:160-165 | Unless a function raises a cancellation itself, a call that ends in a plain cancellation never ran and never will, also when the cancellation races the thread start |
| `BlockingExecutor.CancelledBeforeAdmissionNeverRuns` | brain/platform/async_io.py:142-147 | Over every run: a call that is cancelled before it has a permit is never submitted, whatever becomes of the permits; at every later point its function has not been entered, and it can only end in a plain cancellation |
| `BlockingExecutor.SettlementIsTheVerdict` | brain/platform/async_io.py:158-170 | Over every run, what a call reports follows from how its function ended and whether a cancellation was handled while a thread had it: the value or error itself without one, a settled cancellation carrying it with one |
| `BlockingExecutor.CancellationIsNeverLost` | brain/platform/async_io.py:160-170 | A cancellation asked for at any time before the call is settled decides how it ends |
| `BlockingExecutor.RequestIsHeard` | brain/platform/async_io.py:142-174 | In terms of requests alone: whoever asks for the cancellation of an unsettled call is heard, and a call that had no permit yet then never runs |
| `BlockingExecutor.CancelledBeforeTheFirstStep` | brain/platform/async_io.py:129-131 | A call whose task is cancelled before its first step never begins and never stands in the probe |
| `BlockingExecutor.SubmissionIsKept` | brain/platform/async_io.py:202-225 | Over every run a call keeps the probe of its submission, and has a shielding caller exactly if it came by invoke_maybe_async |
| `BlockingExecutor.NoCancellationIsInvented` | brain/platform/async_io.py:158-170 | As long as nobody asks for one and the function raises none, neither the call nor its caller ends in a cancellation, and the caller is passed what the call settled with |
| `BlockingExecutor.OutcomeIsTheFunctionsEnding` | brain/platform/async_io.py:152-157 | A finished item carries an ending its function really had |
| `BlockingExecutor.AdmittedExactlyUnlessFull` | brain/platform/async_io.py:142-157 | A waiting call that is not cancelled gets a permit exactly when not all are held, and is then queued unless the executor refuses it |
| `BlockingExecutor.OverloadedExactlyWhenFull` | brain/platform/async_io.py:142-147 | A call is turned away as overloaded exactly when its deadline passes while all permits are held |
| `BlockingExecutor.CallerIsToldRightly` | brain/platform/async_io.py:218-240 | Over every run, how `invoke_maybe_async` ends follows from when its await was interrupted and how the call settled: uninterrupted it passes the settlement on, interrupted before the start it ends in a plain cancellation, later in one that carries the outcome of the function, unless the task was done and its exception asked for already |
| `BlockingExecutor.CallerCancellationIsNeverLost` | brain/platform/async_io.py:220-240 | A cancellation of the waiting caller is never swallowed |
| `BlockingExecutor.CallerRequestIsHeard` | brain/platform/async_io.py:220-240 | The same in terms of requests alone: a cancellation asked for while the caller waits ends it in a cancellation, or in an exit that its function raised |
| `BlockingExecutor.CallerFinishes` | brain/platform/async_io.py:109-115 | Once the call has settled, two resumptions end its caller |
| `BlockingExecutor.SettledForGood` | brain/platform/async_io.py:124-175 | No later action runs the function of a settled call or changes how it ended |
| `BlockingExecutor.BlockingCancelMeansSettled` | brain/platform/async_io.py:41-47 | A settled cancellation, seen by either coroutine, carries the outcome of a function that ran exactly once to its end |
| `BlockingExecutor.SnapshotIsExact` | brain/platform/async_io.py:70-74 | The probe reports a call as active exactly while one bound to it is begun and unsettled, and as started exactly while one of those has started |
| `BlockingExecutor.InvocationProbe.EnterBlockingCall` | brain/platform/async_io.py:62-64 | Entering adds exactly this call |
| `BlockingExecutor.InvocationProbe.LeaveBlockingCall` | brain/platform/async_io.py:66-68 | Leaving removes exactly this call |
| `BlockingExecutor.InvocationProbe.Snapshot` | brain/platform/async_io.py:70-74 | The snapshot loop answers what the machine-level snapshot answers whenever the objects mirror the machine state |
| `BlockingExecutor.RunKeepsInv` | brain/platform/async_io.py:124-175 | The invariant tying thread position, start flag, phase, permits and probe entries is kept by every interleaving |
| `BlockingExecutor.StepTowardsSettling` | brain/platform/async_io.py:109-115 | From every reachable state a finite stretch of steps brings an unsettled call closer to its end, even when all threads are busy |
| `BlockingExecutor.EveryCallCanSettle` | brain/platform/async_io.py:109-115 | No shield, uninterruptible wait or full pool can hang a call: some finite schedule settles it, provided functions return |
| `BlockingExecutor.CallerPlainCancelHidesExactly` | brain/platform/async_io.py:218-240 | Over every run: when a cancelled `invoke_maybe_async` reports a plain cancellation, the function ran, once and to its end, exactly if a thread had taken it when the inner coroutine handled the cancellation; handled before admission, or by revoking the queued item, it never ran |
| `BlockingExecutor.CancelDecides` | brain/platform/async_io.py:160-165 | From any state in which the handler is about to cancel the concurrent future, the settled call has run its function exactly if the item was not still queued |
| `BlockingExecutor.CallerPlainCancelCanHideARun` | brain/platform/async_io.py:220-227 | A run beside it: a cancelled caller that found the start flag clear reports a plain cancellation, and the function has run to completion |
| `BlockingExecutor.OwnCancellationLooksPlain` | brain/platform/async_io.py:158-170 | A function that raises a cancellation itself ends its call in a plain cancellation although it ran |
| `Captions.EveryHistoryKeepsTheLog` | meetbot/captions.py:46-106 | Over any history of snapshots and flushes: line numbers are never reused, closed identities are exactly the committed ones, and the next number equals lines committed plus lines pending |
| `Captions.CommittedAtMostOnce` | meetbot/captions.py:59-106 | Each (speaker, line id) is committed at most once and a committed id is never pending again |
| `Captions.CommittedFaithfully` | meetbot/captions.py:79-96 | A committed line has the timestamp, speaker and id of the snapshot that opened it and the last text shown for its id before the commit |
| `Captions.PendingIsCurrent` | meetbot/captions.py:79-96 | A pending line shows the latest text of its id and the stamp of the snapshot that opened it |
| `Captions.OpenedLineExactly` | meetbot/captions.py:56-96 | A snapshot opens a line exactly if it commits one or the speaker had none; the line has the time of the snapshot, which is the clock when the observer gives none, its speaker or a stand-in, its node and text, and the next number; no other line changes |
| `Captions.DroppedExactly` | meetbot/captions.py:59-78 | A snapshot changes nothing exactly if it shows no text, a closed node or the pending text |
| `Captions.ContinuedExactly` | meetbot/captions.py:129-141 | A pending line is rewritten in place, keeping number, time and node, exactly if the snapshot is of the same node, or both have none and one text continues the other or they are alike; otherwise exactly that line is committed |
| `Captions.NoOpenedLineIsLost` | meetbot/captions.py:98-127 | Every line ever opened is committed or pending, and a flush commits all that are pending |
| `Captions.OpenedNeverDecreases` | meetbot/captions.py:114-127 | The number of lines opened never decreases |
| `Captions.FlushSpec` | meetbot/captions.py:101-106 | A flush returns exactly the pending lines, in first-observed order |
| `Captions.SortedOrdersAreUnique` | meetbot/captions.py:101 | First-observed order leaves one possible result |
| `Captions.FlushCount` | meetbot/captions.py:101-106 | A flush returns as many lines as are pending |
| `Captions.NewNodeCommitsIffTextDiffers` | meetbot/captions.py:76-96 | A new line id commits the pending line exactly when it shows another text; an equal text is swallowed |
| `Captions.RollingCaptionBuffer.ObserveSnapshot` | meetbot/captions.py:49-96 | The method has the specified effect on pending lines, closed ids and numbering, and returns the committed line |
| `Captions.RollingCaptionBuffer.FlushPending` | meetbot/captions.py:98-106 | The flush loop returns the specified lines, clears the buffer and closes their ids |
| `Captions.RollingCaptionBuffer.TakeNumber` | meetbot/captions.py:114-127 | A new pending line takes the next number |
| `SessionHealth.NextDeadlineIsLater` | meetbot/session_health.py:99-139 | After the events due at a time are taken, the next deadline is strictly later |
| `SessionHealth.CaughtUpIsNext` | meetbot/session_health.py:134-136 | Catching up stops at the first beat after now |
| `SessionHealth.HeartbeatStaysOnGrid` | meetbot/session_health.py:42-47 | The heartbeat deadline is always start plus a whole number of intervals, and one interval earlier is not in the future |
| `SessionHealth.HeartbeatIsLeastFutureGridPoint` | meetbot/session_health.py:134-136 | It is the least such point after the latest time seen |
| `SessionHealth.HeartbeatExactlyPerBeat` | meetbot/session_health.py:134-138 | Over any session a poll returns a heartbeat exactly if it is the first to reach some beat of the grid and has no warning to return, and then nothing else |
| `SessionHealth.PollReturnsExactly` | meetbot/session_health.py:113-139 | What one poll returns and resolves, in terms of the deadlines, the count and the clock |
| `SessionHealth.NextDeadlineIsExact` | meetbot/session_health.py:99-111 | Before the next deadline a poll finds and changes nothing; from then on it always does something |
| `SessionHealth.StaleWarningExactlyOnFirstPoll` | meetbot/session_health.py:125-132 | A stale warning is returned exactly by the first poll from the stale deadline on, and only if there are then no participants or no captions |
| `SessionHealth.CaptionWarningExactly` | meetbot/session_health.py:117-124 | A caption warning is returned exactly by a poll that finds the session admitted, the grace period since the first admission over, no caption so far and neither warning given for that yet |
| `SessionHealth.MonitorRemembers` | meetbot/session_health.py:77-82 | The monitor knows the count of the latest caption and whether the stale deadline was polled |
| `SessionHealth.WarningsOncePerSession` | meetbot/session_health.py:117-132 | Each of the two warnings is raised at most once, and a stale warning raised with zero captions excludes any later caption warning |
| `SessionHealth.WarningsAreJustified` | meetbot/session_health.py:117-132 | Every warning is true: the grace period passed since the first admission without a caption, or the stale period passed without participants or captions |
| `SessionHealth.OverdueCaptionIsReported` | meetbot/session_health.py:117-132 | An admitted session without captions has had one of the two warnings by the first poll after the grace period |
| `SessionHealth.ResolvedHasReason` | meetbot/session_health.py:77-82 | The caption deadline is resolved only by a caption or by such a warning |
| `SessionHealth.SessionHealthMonitor.NoteAdmitted` | meetbot/session_health.py:68-75 | The caption deadline is set from the first admission only |
| `SessionHealth.SessionHealthMonitor.NoteCaption` | meetbot/session_health.py:77-82 | The count is taken over and the caption deadline resolved |
| `SessionHealth.SessionHealthMonitor.TakeDueEvents` | meetbot/session_health.py:113-139 | The method returns the specified events and updates deadlines and latches as specified |
| `SessionHealth.SessionHealthMonitor.CatchUp` | meetbot/session_health.py:134-136 | The catch-up loop terminates at the closed-form deadline |
| `Session.HistoryIsAPath` | meetbot/session.py:263-277 | Over every run the status history is a path of the transition table ending in the current status, and the session joined exactly if it passes through admitted |
| `Session.HistoryClimbs` | meetbot/session.py:33-40 | Over every run a session goes through lobby, admission and captions in this order, skipping none, and may end after any of them, once |
| `Session.ReportExactly` | meetbot/session.py:263-277 | Which reported statuses the record takes, and that the first admission is noted and starts the caption deadline |
| `Session.SessionEndsAsAsked` | meetbot/session.py:196-236 | Over every run: whatever ends the engine asks for a reason and a status (a result with an accepted reason for Failed exactly if it failed, and Ended otherwise), and if nothing cuts the finish short and its writes succeed the record ends with these |
| `Session.TaskEndsExactly` | meetbot/session.py:196-277 | Over every run: which events end the task of a session (the delivery is over, the finish is cut short where nobody handles it, or the record had already ended), and that nothing of its runtime state is left then |
| `Session.CancelledExactly` | meetbot/session.py:218-227 | A cancellation is booked as a shutdown exactly if the session is still active and no handler is at work; a record that has ended is left alone |
| `Session.ParticipantsExactly` | meetbot/session.py:323-347 | Over every run: participants are known exactly if a roster or a caption that reached the buffer has named one |
| `Session.MonitorIsARun` | meetbot/session.py:263-341 | Over every run the health monitor of a session is where the health module takes it with the first admission, the captions that could be booked and the polls of the live task, so that what is proved of deadlines, warnings and heartbeats holds for sessions |
| `Session.FailedFinishExactly` | meetbot/session.py:228-236 | An exception in `_finish` turns the end into a failure with reason error; inside a handler it closes the session as it is |
| `Session.EndReasonExactly` | meetbot/models.py:32-66 | Which end reasons are accepted for a session that joined and for one that did not, and the outcome each gives |
| `Session.CaptionExactly` | meetbot/session.py:323-342 | When a caption reaches the buffer, and what it does to status, participants and count |
| `Session.TerminalAbsorbs` | meetbot/session.py:33-40 | Once terminal, status, history and admission never change |
| `Session.EndReasonTells` | meetbot/models.py:32-66 | An accepted end reason gives LEFT exactly for an admitted session |
| `Session.OutcomeBreaksExactlyThere` | meetbot/session.py:196-236 | A finished session is LEFT iff it joined, kept by an event exactly unless it is an admission reported after the engine ended or a cancellation of a joined session already made terminal by a callback |
| `Session.FinishedIsLeftIffJoined` | meetbot/session.py:184-236 | With an engine that reports admission only while it runs and no terminal status itself, every finished session is LEFT iff it joined, also when its end reason is rejected, writes fail or it is cancelled |
| `Session.LateAdmissionIsNotLeft` | meetbot/session.py:271-275 | A run in which an admission arrives after the engine returned: joined, but not LEFT |
| `Session.AbandonedExactlyThere` | meetbot/session.py:206-246 | A task ends with its record still active exactly when `_finish` is interrupted inside an `except` block |
| `Session.AtMostOneActive` | meetbot/session.py:104-109 | At most one session that was not so abandoned has an active status, and it holds the slot |
| `Session.JoinExactly` | meetbot/session.py:104-149 | Over every run, a join under a fresh id succeeds exactly unless the slot holds a session that is active and whose task still runs |
| `Session.SlotIsLive` | meetbot/session.py:237-246 | The slot is never held by a session whose task is done |
| `Session.InterruptedHandlerLeavesTwoActive` | meetbot/session.py:206-246 | A run with two active records: a cancellation during the hard-cap clean-up, then another join |
| `Session.TranscriptKeptUnlessAppendFails` | meetbot/session.py:248-257 | Stored lines stay exactly the committed ones except when the transcript rejects an append of the final flush with lines waiting behind it |
| `Session.InStepUnlessLineIsNotWritten` | meetbot/session.py:323-342 | An event leaves the health monitor in step with the buffer exactly unless it is a caption that commits a line which cannot be appended |
| `Session.MonitorBehindExactly` | meetbot/session.py:335-341 | Over any run the monitor is behind exactly from such a caption to the next one that reaches the buffer, and never ahead |
| `Session.DeliveredTranscriptIsComplete` | meetbot/session.py:248-257 | At delivery the stored lines are all lines ever opened, once each, and the counts of record and buffer agree, also when writes failed while captions were running; the monitor agrees exactly if the last caption could be stored |
| `Session.ObservedCountNeverDecreases` | meetbot/session.py:335-341 | The caption count given to the health monitor never decreases |
| `Session.ManagedSession.ReportStatus` | meetbot/session.py:317-321 | The method makes the specified transition and refuses what the table does not allow |
| `Session.ManagedSession.ReceiveCaption` | meetbot/session.py:323-342 | A caption moves an admitted session on and is then buffered, unless the new status cannot be written; else it is ignored |
| `Session.ManagedSession.BufferCaption` | meetbot/session.py:335-341 | Lines, record and monitor are updated together; a line that cannot be appended stays committed but leaves both counts behind |
| `Session.ManagedSession.CommitLines` | meetbot/session.py:360-365 | The lines are kept in any case, the record counts them only if they could be stored |
| `Session.ManagedSession.EndWithResult` | meetbot/session.py:196-205 | A result settles the outcome or, with a rejected reason, is handled as an error |
| `Session.ManagedSession.EnterHandler` | meetbot/session.py:206-236 | The `except` blocks settle reason and outcome and enter `_finish` |
| `Session.ManagedSession.EnterFinish` | meetbot/session.py:248-250 | A terminal record skips `_finish` |
| `Session.ManagedSession.Raise` | meetbot/session.py:228-236 | An exception in `_finish` is handled once |
| `Session.ManagedSession.FinishTranscript` | meetbot/session.py:253-262 | Flush, commit, transition and hand-over, with any of the writes failing |
| `Session.ManagedSession.CloseSession` | meetbot/session.py:237-246 | The runtime state is dropped |
| `Session.SessionManager.JoinMeeting` | meetbot/session.py:104-149 | A join is refused exactly while the slot holds a session with an active status; else it registers a new session there and changes no other |
| `Session.SessionManager.ReleaseSession` | meetbot/session.py:237-246 | The end of a task frees the slot only if it is still its own |
| `Deadman.ParseAfterSerialize` | ops/external_deadman/watcher.py:120-147 | Reading back a written state only floors `missing_since` to whole seconds |
| `Deadman.FlooringIsHarmless` | ops/external_deadman/watcher.py:80-81 | Flooring never changes an outage ID and makes an alarm due less than a second early |
| `Deadman.SerializeAfterParse` | ops/external_deadman/watcher.py:120-147 | A file that states all fields, with a whole second, is written back as it was read |
| `Deadman.ParseIsStrict` | ops/external_deadman/watcher.py:120-140 | A missing file or field reads as no outage, and a field of the wrong type is refused |
| `Deadman.NoticeExactly` | ops/external_deadman/watcher.py:177-205 | When a run decides on a notice, and which: a missing heartbeat alarms exactly twelve minutes after the persisted start, a present one exactly when it is twelve minutes old, and only a younger one recovers |
| `Deadman.NoAlarmBeforeTwelveMinutes` | ops/external_deadman/watcher.py:177-195 | Over any runs that see the heartbeat missing, with any failures, nothing is posted before twelve minutes have passed since a run that found it missing |
| `Deadman.SwitchesExactly` | ops/external_deadman/watcher.py:445-470 | A forced run alarms exactly if no alarm is recorded; a dry run does nothing |
| `Deadman.RunLeavesExactly` | ops/external_deadman/watcher.py:476-482 | The notice is in the log exactly if it was delivered; the state is replaced exactly if the post was accepted and the write took effect |
| `Deadman.StaleHeartbeatAlarms` | ops/external_deadman/watcher.py:476-482 | While one stale heartbeat is read, any failures give every alarm one ID; alarmed is persisted only after a delivery and at the latest by a run that completes |
| `Deadman.MissingAlarmNeedsPersistedStart` | ops/external_deadman/watcher.py:177-195 | A missing-heartbeat alarm fires only from an already persisted start and carries its ID |
| `Deadman.MissingHeartbeatAlarms` | ops/external_deadman/watcher.py:177-195 | While the heartbeat stays missing, the persisted start never moves, every alarm carries its ID, and a run that completes past the threshold leaves it alarmed |
| `Deadman.FreshHeartbeatRecovers` | ops/external_deadman/watcher.py:197-205 | While heartbeats stay fresh after an alarm, every notice is a recovery naming that outage, and a completed run clears the alarm after a delivery |
| `Deadman.CompletedRunIsQuiet` | ops/external_deadman/watcher.py:476-482 | Repeating a completed run posts and writes nothing |
| `Deadman.InStepUnlessUnrecorded` | ops/external_deadman/watcher.py:476-482 | The notices posted and the persisted state stay in step exactly unless a delivered notice goes unrecorded |
| `Deadman.NoticesAlternate` | ops/external_deadman/watcher.py:187-207 | When state writes take effect and failed posts are not delivered, alarms and recoveries strictly alternate, each recovery naming the alarm before it |
| `Deadman.UnrecordedAlarmHasNoRecovery` | ops/external_deadman/watcher.py:476-482 | An alarm delivered but not recorded is followed by no recovery while heartbeats are fresh |
| `Deadman.UnrecordedRecoveryHidesNextOutage` | ops/external_deadman/watcher.py:476-482 | A recovery delivered but not recorded suppresses the alarm of the next outage, however long it lasts |
| `Deadman.WriteJson` | ops/external_deadman/watcher.py:346-380 | The state write succeeds exactly if one of three attempts does and every earlier one was a retryable conflict |
| `Deadman.SucceedsExactly` | ops/external_deadman/watcher.py:346-380 | Three attempts succeed exactly if the first does, or it is tried again and the second does, or both are and the third does |
| `Deadman.RepliesExactly` | ops/external_deadman/watcher.py:350-378 | A conflict is tried again on an update, an unprocessable reply also on the creation of the branch, and a failed read never |
| `WorkspaceInventory.InventoryWorkspace` | brain/systems/workspace_inventory.py:36-101 | Total bytes, the bytes of each direct child and the errors are those of the recursive definitions; no errors exactly for a fully readable tree; the report is the top of the (bytes descending, path) order |
| `WorkspaceInventory.WalkTree` | brain/systems/workspace_inventory.py:52-88 | The stack-driven loop terminates and finds, per direct child and in all, what the recursion over the tree finds, and every failed scan or stat once |
| `WorkspaceInventory.VisitListing` | brain/systems/workspace_inventory.py:66-88 | Visiting one listing keeps found plus still to be found equal to everything |
| `WorkspaceInventory.VisitEntry` | brain/systems/workspace_inventory.py:68-88 | One entry is charged, stacked, reported or skipped |
| `WorkspaceInventory.NoFailuresIffReadable` | brain/systems/workspace_inventory.py:31-33 | A tree has no failures exactly when every scan and stat in it succeeds |
| `WorkspaceInventory.PopListing` | brain/systems/workspace_inventory.py:52-55 | Taking a directory off the stack trades its account for its listing |
| `WorkspaceInventory.PopUnscannable` | brain/systems/workspace_inventory.py:54-64 | A directory that cannot be scanned gives one error and no bytes |
| `WorkspaceInventory.TotalCharge` | brain/systems/workspace_inventory.py:82-85 | Charging bytes to a name raises the sum of all values by exactly that much |
| `WorkspaceInventory.ListConsumers` | brain/systems/workspace_inventory.py:90-98 | Each recorded child is listed once and the values add up |
| `WorkspaceInventory.RankConsumers` | brain/systems/workspace_inventory.py:94-99 | At least one and at most `limit` consumers are reported, largest first, and none left out ranks before one reported |
| `WorkspaceInventory.LargestFirst` | brain/systems/workspace_inventory.py:90-99 | The report spelled out: sizes fall, equal sizes go by path, whoever is left out is no larger than anyone shown |
| `WorkspaceInventory.RankIsAnOrder` | brain/systems/workspace_inventory.py:94 | The ranking is a total order on consumers |
| `WorkspaceReclamation.BooksBalance` | brain/systems/workspace_reclamation.py:344-496 | Whatever changes between the two looks: each counter is the number of workspaces ending that way, reclaimed bytes are theirs, scanned candidates and errors are all accounted for, and reclaimed never exceeds the limit or the reclaimable |
| `WorkspaceReclamation.InventoryBalances` | brain/systems/workspace_reclamation.py:344-411 | The same after the first pass, with the reclaimable counters describing the list |
| `WorkspaceReclamation.ReclaimedExactlyWhenConfirmed` | brain/systems/workspace_reclamation.py:422-496 | A workspace ends reclaimed exactly when it was complete, old and without a live parent run at both looks, was among the oldest, and could be deleted |
| `WorkspaceReclamation.EachWorkspaceEnds` | brain/systems/workspace_reclamation.py:422-496 | Every workspace ends re-checked, postponed by the limit, or as first measured |
| `WorkspaceReclamation.OldestFirst` | brain/systems/workspace_reclamation.py:423-428 | The limit spares the youngest, and nobody waits while there is room |
| `WorkspaceReclamation.ChosenAreOlder` | brain/systems/workspace_reclamation.py:423-430 | Whoever is chosen was modified earlier than whoever has to wait, or at the same time and its path comes first |
| `WorkspaceReclamation.OldestAreTried` | brain/systems/workspace_reclamation.py:423-496 | The same for how a run leaves them: those tried were modified earlier than those postponed, and some are postponed only if more were fit than allowed |
| `WorkspaceReclamation.DispositionExactly` | brain/systems/workspace_reclamation.py:374-496 | Where each workspace ends, in terms of the two looks at it, with the size and errors of the look that decided |
| `WorkspaceReclamation.AttemptsAreConfirmed` | brain/systems/workspace_reclamation.py:430-482 | A tree is handed to the recursive delete exactly for a chosen workspace whose fresh re-check was complete, old and without a live parent run |
| `WorkspaceReclamation.ReportIsTop` | brain/systems/workspace_reclamation.py:255-273 | The report is the top of its order and says it is truncated exactly when something is missing |
| `WorkspaceReclamation.ReportOrderExactly` | brain/systems/workspace_reclamation.py:255-273 | Reclaimed workspaces come first, then those that still can be, larger before smaller, and by path |
| `WorkspaceReclamation.QueuePlaced` | brain/systems/workspace_reclamation.py:423-426 | The queue holds each reclaimable workspace once, oldest first |
| `WorkspaceReclamation.EveryCandidateIsCounted` | brain/systems/workspace_reclamation.py:344-365 | Every scanned candidate is refused, not stat-able or validated |
| `WorkspaceReclamation.ParentRunStatuses` | brain/systems/workspace_reclamation.py:179-199 | Queries in batches, merged, give the status of each parent run asked about |
| `WorkspaceReclamation.MeasuredWorkspace.ConfirmAndReclaim` | brain/systems/workspace_reclamation.py:431-496 | One re-check and deletion has the specified effect on the workspace and the counters |
| `WorkspaceReclamation.ValidateEntries` | brain/systems/workspace_reclamation.py:344-365 | The loop returns the entries that could be stat-ed, in order, and counts every candidate as scanned and those refused or unreadable as such |
| `WorkspaceReclamation.MeasureFound` | brain/systems/workspace_reclamation.py:374-411 | The loop returns one fresh object per entry, in order, holding the inventory, the parent run's status and the first disposition, and the counters of the first pass |
| `WorkspaceReclamation.PostponeRest` | brain/systems/workspace_reclamation.py:427-428 | The loop marks exactly the queued workspaces behind the limit as postponed and touches no other |
| `WorkspaceReclamation.ReclaimChosen` | brain/systems/workspace_reclamation.py:430-496 | The deletion loop updates the shared objects as specified, in order |
| `WorkspaceReclamation.CollectWorkspaces` | brain/systems/workspace_reclamation.py:344-496 | The objects and counters returned are those of the specified books, of the first pass alone or of both, and the paths handed to the delete are the confirmed ones of the chosen workspaces, in order |
| `WorkspaceReclamation.ManageWorkspaces` | brain/systems/workspace_reclamation.py:294-512 | One call: argument errors, clamped limits, the special cases of the directory, no deletion unless asked for and never automatically against the policy |
| `WorkspaceReclamation.LimitsExactly` | brain/systems/workspace_reclamation.py:295-300 | At least one and at most a hundred reclaims, at least one and at most two hundred lines of report |
| `RateLimit.AdmitsLikeFullLog` | brain/app/api/deps.py:44-77 | After any calls, a call not before the latest one is admitted exactly if the full log of admissions would admit it |
| `RateLimit.LimiterKeepsFullLog` | brain/app/api/deps.py:44-77 | While the clock does not run back, a run of the pruned limiter admits exactly what a limiter that keeps everything admits |
| `RateLimit.CountsAllExactly` | brain/app/api/deps.py:59-60 | After any calls on any clock, the pruned list of a bucket counts what the full log counts exactly if everything pruned so far is outside the window |
| `RateLimit.RateLimiter.RateLimit` | brain/app/api/deps.py:44-77 | One call has the specified effect on lists and log on any clock, decides as the full log when the clock has not run back, and ignores internal callers |
| `RateLimit.RateLimiter.CheckBucket` | brain/app/api/deps.py:59-64 | One bucket: what still counts, the wait, and the failure on an empty list |
| `RateLimit.WindowsHoldAtMostLimit` | brain/app/api/deps.py:59-64 | Of any admissions of one bucket within less than a window there are at most as many as its limit |
| `RateLimit.PrincipalsStayWithinLimits` | brain/app/api/deps.py:52-64 | Within any stretch shorter than the window no principal is admitted more often than the global limit and no route of it more often than the route limit |
| `RateLimit.AdmissionsWithinLimits` | brain/app/api/deps.py:59-64 | The same for any pick of admissions from one bucket |
| `RateLimit.RefusedExactlyUntilDue` | brain/app/api/deps.py:62-64 | A refused caller for whom nothing more is booked is admitted exactly from the due time on, and the advertised delay is that time rounded up to a whole second |
| `RateLimit.CrashesExactlyWithoutLimits` | brain/app/api/deps.py:62-63 | A request fails with an index error exactly when a limit is not positive, and then every one does |
| `RateLimit.AdmittedIffBelowLimits` | brain/app/api/deps.py:62-77 | A request is admitted exactly when both buckets are below their limits |
| `RateLimit.AdmittedExactly` | brain/app/api/deps.py:52-64 | In plain terms: a request is admitted exactly if its principal was admitted less than the route limit on this route, and less than the global limit in all, within the last window; principals that share a bucket apart |
| `RateLimit.CountedAtMostLimit` | brain/app/api/deps.py:59-64 | At no time does a bucket count more than its limit |
| `RateLimit.BucketReopens` | brain/app/api/deps.py:59-64 | A full bucket opens exactly when its oldest counted admission leaves the window |
| `RateLimit.PruningIsInvisible` | brain/app/api/deps.py:59-68 | Pruning changes no later count |
| `RateLimit.BookingIsVisible` | brain/app/api/deps.py:75-77 | Booking an admission in the pruned lists counts like booking it in the full log |
| `RateLimit.ClockStepsBack` | brain/app/api/deps.py:49-60 | A run of the limiter whose clock steps back: it admits three requests of one route within one window of two |
| `RateLimit.PrincipalsShareExactly` | brain/app/api/deps.py:52-55 | Two principals can share a route bucket exactly if one is the other followed by a colon, a verb and a space |
| `RateLimit.RouteKeysAreDistinct` | brain/app/api/deps.py:52-55 | Principals without a space never do |
| `RateLimit.RouteKeysCanCollide` | brain/app/api/deps.py:52-55 | Two users that do, one with a space in the id |
| `MappingExpressions.EvaluatesForEverySourceExactly` | brain/platform/mapping_expressions.py:36-73 | An expression, valid or not, evaluates for every source exactly if no branch that some source can reach holds an error: a walk over the expression that remembers how the conditions on each path came out |
| `MappingExpressions.ValidatedExpressionsEvaluate` | brain/platform/mapping_expressions.py:154-215 | Whatever validation accepts, at any depth, is evaluated without a mapping error, for every source |
| `MappingExpressions.ValidatedExpressionsMeanTheirTree` | brain/platform/mapping_expressions.py:50-73 | A validated expression evaluates to the leaf its decision tree leads to, for every source; whatever else it holds is ignored |
| `MappingExpressions.ValidExactly` | brain/platform/mapping_expressions.py:154-215 | Validation accepts exactly the grammar: one keyword per object with the right kind of value, conditions that name a path, strings as paths, literals only in branches |
| `MappingExpressions.ConditionErrorsExactly` | brain/platform/mapping_expressions.py:205-215 | Each error of a condition is reported exactly for its own reason |
| `MappingExpressions.FieldIsLikePath` | brain/platform/mapping_expressions.py:83-86 | `field` is another name for `path` in a condition, for validation and evaluation alike |
| `MappingExpressions.LeafErrorExactly` | brain/platform/mapping_expressions.py:161-176 | Which error an object has that is no conditional |
| `MappingExpressions.ConditionalErrorsExactly` | brain/platform/mapping_expressions.py:176-193 | The errors of a conditional are those of its parts |
| `MappingExpressions.FirstKeywordDecides` | brain/platform/mapping_expressions.py:50-73 | Which keyword decides an object with several |
| `MappingExpressions.ConditionPicksBranch` | brain/platform/mapping_expressions.py:61-69 | What a conditional evaluates to: the error of its condition, or the branch it picks, literals for themselves and null for a missing one |
| `MappingExpressions.UndecidedExactly` | brain/platform/mapping_expressions.py:83-99 | When a condition cannot be decided, whatever the source |
| `MappingExpressions.FalsyExactly` | brain/platform/mapping_expressions.py:100 | The values that count as false |
| `MappingExpressions.EncodedTreesAreValid` | brain/platform/mapping_expressions.py:154-202 | Every decision tree, written down as an expression, has no validation errors |
| `MappingExpressions.DecodeAfterEncode` | brain/platform/mapping_expressions.py:50-73 | Reading back an expression written from a tree gives the tree |
| `MappingExpressions.ConditionMeansTest` | brain/platform/mapping_expressions.py:83-100 | A condition without errors is decided as its one test says |
| `MappingExpressions.ConditionSound` | brain/platform/mapping_expressions.py:205-215 | A condition without errors can be decided |
| `MappingExpressions.ErrorsAreLocated` | brain/platform/mapping_expressions.py:154-202 | Every error names the validated expression or a place below it |
| `MappingExpressions.RejectedMayEvaluate` | brain/platform/mapping_expressions.py:36-70 | Such an expression that validation refuses: one with two keywords |
| `MappingExpressions.NegatedMatchesOpposite` | brain/platform/mapping_expressions.py:76-100 | `exists`, `equals` and `not_equals` negate each other |
| `MappingExpressions.NegationSwapsBranches` | brain/platform/mapping_expressions.py:61-69 | Negating a condition and swapping its branches never changes the value |
| `MappingExpressions.CollectConditionErrors` | brain/platform/mapping_expressions.py:205-215 | The appended errors are those of the condition |
| `MappingExpressions.CollectExpressionErrors` | brain/platform/mapping_expressions.py:154-202 | The appended errors are those of the expression, in order |
| `MappingExpressions.CollectBranchErrors` | brain/platform/mapping_expressions.py:176-193 | The appended errors are those of condition, then and else, in order |
| `MappingExpressions.ValidateMappingExpression` | brain/platform/mapping_expressions.py:23-33 | Validation reports all errors, or the expression can be evaluated |
| `PathTemplate.ScanAfterUnparse` | brain/platform/mapping_expressions.py:12 | Scanning reads back exactly the tokens a template was written from |
| `PathTemplate.UnparseAfterScan` | brain/platform/mapping_expressions.py:12 | What a scan accepts it has read completely |
| `PathTemplate.FailsExactlyWhenMalformed` | brain/platform/mapping_expressions.py:134-143 | A template raises exactly when it is not the text of well-formed tokens, whatever its placeholders resolve to |
| `PathTemplate.InterpolateAppend` | brain/platform/mapping_expressions.py:150-151 | Rendering distributes over concatenation when the first part is well formed |
| `PathTemplate.DistributesExactly` | brain/platform/mapping_expressions.py:137-151 | For any first part, well formed or not: rendering distributes over every second part exactly if what the scanner leaves of the first cannot be completed by more text |
| `PathTemplate.LoneBracesDoNotDistribute` | brain/platform/mapping_expressions.py:137-140 | A first part that can: a lone opening brace |
| `PathTemplate.DoubledTextIsLiteral` | brain/platform/mapping_expressions.py:126-138 | A text with an opening brace, every brace doubled, renders to itself; one without is taken as a path |
| `PathTemplate.EscapingNeedsOpeningBrace` | brain/platform/mapping_expressions.py:129-130 | The escaping law holds for every resolver exactly for texts with an opening brace |
| `PathTemplate.MissingExactlyWhenAPlaceholderIs` | brain/platform/mapping_expressions.py:144-151 | A well-formed template is missing exactly when some placeholder is missing, null or empty |
| `PathTemplate.PlaceholderIsReplaced` | brain/platform/mapping_expressions.py:144-151 | A placeholder between two well-formed texts is replaced by the text its path resolves to, and nothing else changes |
| `PathTemplate.PiecesStandFor` | brain/platform/mapping_expressions.py:126-148 | What each piece of a template stands for: a placeholder, a doubled brace, any other character |
| `PathTemplate.MissingExactly` | brain/platform/mapping_expressions.py:144-151 | A template is missing exactly if some placeholder resolves to what is missing, null or empty |
| `PathTemplate.ProblemExactly` | brain/platform/mapping_expressions.py:137-143 | Which error a malformed template raises: that of an empty path exactly if a blank placeholder stopped it |
| `PathTemplate.PlainTemplateIsAPath` | brain/platform/mapping_expressions.py:129-130 | Without an opening brace the template is a path |
| `PathTemplate.RenderPathTemplate` | brain/platform/mapping_expressions.py:117-151 | The substitution loop computes the specified outcome |
| `AlertResolution.ReplayIndependence` | brain/systems/alert_resolution.py:428-505 | However the messages arrive and whatever fails before the last harvest, verified, the thread and the watermark end as if all had been harvested at once; so do status, date and bot if settled, and the fix reference if settled or no poll misses a message older than one it holds |
| `AlertResolution.ReplaysExactly` | brain/systems/alert_resolution.py:334-358 | For any field that an update sets from its signal or leaves alone: over all schedules it is independent of arrival exactly if the newest signal sets it or no signal could have changed it before |
| `AlertResolution.StatusReplaysExactly` | brain/systems/alert_resolution.py:339-358 | This for the status: there is an option for the newest kind, or no signal could have moved the status |
| `AlertResolution.DateReplaysExactly` | brain/systems/alert_resolution.py:334-349 | This for the date of the verification |
| `AlertResolution.FixReferenceReplays` | brain/systems/alert_resolution.py:451-456 | The fix reference too is independent of arrival when no poll misses a message older than one it holds |
| `AlertResolution.FixReferenceAgreesExactly` | brain/systems/alert_resolution.py:451-465 | When polls miss older messages: the reference agrees with one harvest of all exactly if no confirmation has one, or the poll that reached the newest signal left the same |
| `AlertResolution.FixReplaysExactly` | brain/systems/alert_resolution.py:451-456 | Over all schedules it is independent of arrival exactly if the newest signal is old or decides it, no confirmation has one, or only one value occurs |
| `AlertResolution.MovementsOnlyGoForward` | brain/systems/alert_resolution.py:459-465 | Over any mix of harvests and edits, a record is moved only by ever newer signals, each newer than all dealt with before |
| `AlertResolution.OldSignalsChangeNothing` | brain/systems/alert_resolution.py:459-465 | Signals no newer than the watermark leave the record untouched, so an old confirmation never verifies a reopened record again |
| `AlertResolution.UpdateMovesWatermark` | brain/systems/alert_resolution.py:334-356 | An update deals with the newest signal and sets the watermark exactly there |
| `AlertResolution.HarvestExactly` | brain/systems/alert_resolution.py:444-505 | A record is skipped exactly if no signal is newer than both stored times, and else updated if its fields are provisioned and the update succeeds |
| `AlertResolution.RefusedExactly` | brain/systems/alert_resolution.py:466-490 | A newer signal is refused exactly if the schema lacks a field that its patch needs, or the update fails |
| `AlertResolution.UpdateExactly` | brain/systems/alert_resolution.py:326-366 | What an update leaves, field by field |
| `AlertResolution.StatusForExactly` | brain/systems/alert_resolution.py:339-354 | Which status option each kind of signal selects |
| `AlertResolution.LatestIsNewest` | brain/systems/alert_resolution.py:449-450 | The signal acted on is the newest |
| `AlertResolution.LastConfirmation` | brain/systems/alert_resolution.py:451-452 | The newest confirmation is that signal or an older one |
| `AlertResolution.FixReferenceDependsOnArrival` | brain/systems/alert_resolution.py:453-456 | Two signals on which it depends on arrival |
| `AlertResolution.StatusNeedsItsOption` | brain/systems/alert_resolution.py:339-358 | Two signals on which the status does, without an option for the newer one |
| `AlertResolution.SummaryAccounts` | brain/systems/alert_resolution.py:428-505 | Every examined record is updated, skipped or an error, and the movements are those of the records that moved |
| `AlertResolution.CountersExactly` | brain/systems/alert_resolution.py:428-505 | Each kind counts its movements, the skipped records are those with nothing newer, every source is read or failed |
| `AlertResolution.SignalsExactly` | brain/systems/alert_resolution.py:429-445 | The signals of a record are those of all its sources that could be read |
| `AlertResolution.RecordsExactly` | brain/systems/alert_resolution.py:428-505 | One harvest leaves every record updated or as it was, in its place |
| `AlertResolution.HarvestGroup` | brain/systems/alert_resolution.py:429-505 | One record: read, decide, update, count |
| `AlertResolution.RunHarvest` | brain/systems/alert_resolution.py:371-505 | The loop over all records returns the specified records and summary |
| `LaunchHandoffs.RaceFreeConflictsExactly` | brain/systems/launch_handoffs.py:326-369 | After any run, races included, a create without a race meets the unique constraint exactly if it retires a dead holder whose retired key a caller has already taken |
| `LaunchHandoffs.ConflictsExactly` | brain/systems/launch_handoffs.py:326-369 | Races included, a create meets it exactly if it loses a race for a key that is held, or retires to a key that is held |
| `LaunchHandoffs.NoConflictWithoutRace` | brain/systems/launch_handoffs.py:339-369 | It is never met without a race as long as callers leave the namespace of retired keys alone |
| `LaunchHandoffs.RetiredNamespaceCanConflict` | brain/systems/launch_handoffs.py:174-175 | A run in which a caller did not, and it is met |
| `LaunchHandoffs.OneHolderPerKey` | brain/platform/db/models/launch_handoff.py:33 | Supporting the above: given that constraint, no run leaves two rows of one org with one key |
| `LaunchHandoffs.CallerKeyIsKept` | brain/systems/launch_handoffs.py:155-164 | A row created under a caller-supplied key keeps it for ever |
| `LaunchHandoffs.DerivedCreateIsActionable` | brain/systems/launch_handoffs.py:326-349 | A create under a derived key hands out a row that holds it and is actionable at that moment, and refuses exactly for a dead holder under a caller's key |
| `LaunchHandoffs.ReusedExactly` | brain/systems/launch_handoffs.py:326-349 | The row that has the asked key is handed out again under a caller's own key always, dead or alive, and under a derived key only while it is alive; it is counted, dated and otherwise unchanged |
| `LaunchHandoffs.DeadHolderExactly` | brain/systems/launch_handoffs.py:155-177 | A dead row under a derived key is refused exactly if it is not marked as derived; otherwise it gives up the key, which stays on record, and a new row takes it |
| `LaunchHandoffs.NewRowExactly` | brain/systems/launch_handoffs.py:349-369 | Without a key, or with one nobody has, a create makes an open row under it, marked derived exactly if the key is not the caller's |
| `LaunchHandoffs.InvalidExactly` | brain/systems/launch_handoffs.py:314-317 | An incomplete request is turned away first, and only it |
| `LaunchHandoffs.LaunchUsesUp` | brain/systems/launch_handoffs.py:398-412 | A launched row is counted and no longer alive |
| `LaunchHandoffs.KeyedCreatesAreConserved` | brain/systems/launch_handoffs.py:142-152 | Keyed creates served equal keyed rows plus the sum of refire counts, over creates, launches, expiry and retirement |
| `LaunchHandoffs.CreateKeepsUnique` | brain/systems/launch_handoffs.py:332-369 | One create keeps keys unique |
| `LaunchHandoffs.LaunchHandoffService.CreateLaunchHandoff` | brain/systems/launch_handoffs.py:300-369 | The method reuses, retires, refuses or inserts as specified |
| `LaunchHandoffs.LaunchHandoffService.RetireDerivedKey` | brain/systems/launch_handoffs.py:155-177 | Retirement replaces a derived key, keeps it on record, and refuses for a caller's key |
| `LaunchHandoffs.LaunchHandoffService.RecordRefire` | brain/systems/launch_handoffs.py:142-152 | A refire counts one more and changes nothing else of the row |
| `LaunchHandoffs.LaunchHandoffService.MarkLaunched` | brain/systems/launch_handoffs.py:398-412 | A launch is counted and closes an open row |
| `Chantiers.MergedRefsAreTheUnion` | brain/systems/chantiers.py:179-200 | Merged references have the union of the identities, each once, cleaned |
| `Chantiers.MergingTwiceIsMergingOnce` | brain/systems/chantiers.py:179-200 | Merging the same references again changes nothing |
| `Chantiers.KeptAreTheFirst` | brain/systems/chantiers.py:186-199 | The merged references are exactly the cleaned first named candidates of each identity |
| `Chantiers.CleanedExactly` | brain/systems/chantiers.py:190-197 | A cleaned reference keeps source and ref, stripped, and its title exactly if something is left of it |
| `Chantiers.OneIdentityExactly` | brain/systems/chantiers.py:186-192 | References count as one exactly if they have one ref and one source, up to case |
| `Chantiers.TitlesSurviveExactly` | brain/systems/chantiers.py:179-200 | Every titled reference finds a title at its identity afterwards exactly if the first candidate of each identity has one whenever any has |
| `Chantiers.OwnTitlesSurviveExactly` | brain/systems/chantiers.py:179-200 | Every titled reference finds its own title there exactly if no later candidate has another title than the first |
| `Chantiers.LaterTitleIsLost` | brain/systems/chantiers.py:186-199 | A merge beside it that drops a title: only the later duplicate has one |
| `Chantiers.MergeChantierRefs` | brain/systems/chantiers.py:179-200 | The loop computes the specified list |
| `Chantiers.FreshMerge` | brain/systems/chantiers.py:403-430 | A fresh merge takes exactly the duplicate out of the active set, gives the canonical record the references of both and touches nothing else |
| `Chantiers.MergedExactly` | brain/systems/chantiers.py:335-401 | A merge goes through exactly if it has a reason, its records are different listed chantiers, the canonical one in work with a slug, the duplicate superseded by none, and the caller knows both current versions; else nothing is written |
| `Chantiers.StaleVersionRefusesExactly` | brain/systems/chantiers.py:392-401 | A version that is no longer current refuses a merge that would go through otherwise, and the caller is told which |
| `Chantiers.MergeSeesWhatItsCallerSaw` | brain/systems/chantiers.py:392-430 | No lost update: a merge that goes through with the versions of an earlier look finds both records exactly as they were then, whatever was merged in between |
| `Chantiers.AbsorbsExactly` | brain/systems/chantiers.py:403-420 | The canonical record is written exactly if it lacks a reference of the duplicate or its own are not clean |
| `Chantiers.ActiveExactly` | brain/systems/chantiers.py:99-120 | Whom counts and sweeps see: listed chantiers in one of four states, not superseded |
| `Chantiers.AlreadyMergedExactly` | brain/systems/chantiers.py:369-388 | It has been done already exactly if the duplicate is paused and superseded by the slug of the canonical record |
| `Chantiers.RefusedExactly` | brain/systems/chantiers.py:366-391 | Why a merge of two listed chantiers is refused before versions matter |
| `Chantiers.UnfitExactly` | brain/systems/chantiers.py:335-365 | Why a merge is not even looked at |
| `Chantiers.RepeatedMergeWritesNothing` | brain/systems/chantiers.py:369-388 | Repeating a merge, whatever is merged in between, is recognised and writes nothing |
| `Chantiers.SupersessionIsAcyclic` | brain/systems/chantiers.py:390-430 | Over any run of merges with distinct slugs supersession links form no cycle |
| `Chantiers.SharedSlugMakesACycle` | brain/systems/chantiers.py:390-430 | Merging two records with one slug makes the duplicate supersede itself |
| `Chantiers.AcyclicExactlyWithDistinctSlugs` | brain/systems/chantiers.py:390-430 | From a table of open records every run stays acyclic exactly when the slugs are distinct |
| `Chantiers.MatchIgnoresOrder` | brain/systems/chantiers.py:257-318 | Matching gives the same answer for every order of the records |
| `Chantiers.MatchMeaning` | brain/systems/chantiers.py:290-318 | A declaration resolves to the one active record it names, to the one approximate match only if it names none, is ambiguous exactly if several fit in that way, and resolves to nothing exactly if none does |
| `Chantiers.NamesExactly` | brain/systems/chantiers.py:274-289 | Whom a declaration names: a chantier in work that shares a reference with it, by folded source and by ref, or that the exact rule fits |
| `Chantiers.NamedRecordIsFound` | brain/systems/chantiers.py:290-305 | A record that alone is named is found, with the evidence that names it |
| `Chantiers.FittingRecordIsFound` | brain/systems/chantiers.py:306-318 | If none is named, a record that alone fits approximately is found |
| `Chantiers.ListAllRecords` | brain/systems/chantiers.py:130-146 | Paging returns the complete listing once, in order |
| `Chantiers.ChantierStore.MergeChantierRecords` | brain/systems/chantiers.py:335-442 | The method makes the checks in order and has the specified effect on the stored records |
| `Ordering.SortSpec` | meetbot/captions.py:101 | Sorting permutes its input and orders it (used wherever the code sorts) |
| `Ordering.SortIsStable` | meetbot/captions.py:101 | Sorting is stable |
| `Ordering.LexExactly` | brain/systems/workspace_reclamation.py:425 | Paths are compared by the first character in which they differ |

## Left out

- BlockingExecutor: the coroutines are atomic steps of a transition system rather than methods, because the interleaving is the subject; fairness of the event loop, the awaitable results of `invoke_maybe_async` (lines 232-242) and interpreter shutdown are not modelled.
- Captions: `SequenceMatcher` and white-space cleaning are parameters; strings are compared as character sequences.
- Session: transcript files, webhooks, warnings, chat and leave requests; timestamps of the record beyond whether it joined. Session ids are fresh on every join.
- SessionHealth: the polling loop, when the event loop wakes it up, and delivery and numbering of health webhooks; clock times are reals.
- Deadman: HTTP, JSON text and the self-monitor ping. The clock is arbitrary per run.
- WorkspaceInventory: device boundaries, hard links and changes during one walk; entry names are not empty; error messages.
- WorkspaceReclamation: path resolution, run-status vocabulary and storage policy are inputs; the JSON form of a report line; exceptions other than a failed delete in the second pass.
- RateLimit: how a principal and a route are read from a request; internal addresses are an input.
- RateLimit.RateLimiter.RateLimit: decides like the full log only at times not before the latest one seen, because after a step back it need not (`RateLimit.ClockStepsBack`, with the exact condition in `RateLimit.CountsAllExactly`).
- MappingExpressions: the words of error messages, identifier templates (`render_mapping_template`) and Python equality are parameters or reduced to what they are about.
- PathTemplate: what counts as white space is a parameter.
- AlertResolution: recognising judgments in text, Slack paging, timestamps that are no finite number, and setup failures of a whole harvest.
- AlertResolution.ReplayIndependence: assumes distinct timestamps and all fields provisioned; a schema that lacks a field of a patch refuses all of it, and is a fault of the deployment.
- LaunchHandoffs: digests are uninterpreted and, where needed, injective; concurrent refires of one row, which can lose a count, are not modelled, and each call is one transaction.
- Chantiers: slug and title rules, token matching and domain lookup are inputs; the checks on the object type happen under its lock.
- Chantiers.ListAllRecords: the listing does not change between pages.
- Ordering: Python's `sorted` is modelled as a stable insertion sort.
- The storage policy, worker swap, provider health, host capacity latches, provider alert vocabulary, HTTP routers, database schema beyond one constraint, and all command-line tools.
