# Proofs about the agent's log tailers, the liveness receiver, the runner and the redactor

A Dafny 4.11 model of the stateful core of the agent and its receiver, and proofs about every
run of it. `dafny verify dfyconfig.toml` checks the whole project.

- **Nextcloud log tailer.** `Lines` says what the lines of a file are. `NextcloudModel` gives
  one reading pass on values: budget, quota, line handling, rotation guard, draining of `.1`,
  both sources of a round. `NextcloudState` adds the state file, the local jsonl copy and the
  undo mark, with a fault flag for every step. `NextcloudTail` is the imperative code (classes
  for budget, quota, result, position and collector), each method proved equal to the value
  function of the same step. `NextcloudSource`, `NextcloudLedger` and `NextcloudRuns` prove
  exactly-once delivery over runs of appends, rotations and failing rounds; `NextcloudBounds`
  proves the size limit, that no source starves and that backlogs drain; `NextcloudShares` how a
  report is shared between the two logs;
  `NextcloudIncremental` proves that reading in rounds is reading once.
- **Audit log tailer.** `AuditTail`: capped reading across daily rollover.
- **Receiver.** `ReportFiles` (names, days, retention), `ReceiverStore` (the in-memory index
  against the append-only log, report files as bytes, restarts), `Liveness` (the checker as a
  loop and as interleaved steps), `LivenessProperties` (the loop is one of the interleavings),
  `LivenessRestarts`, `LivenessWrites` (leaving out unchanged writes) and `LivenessOutages`.
- **Runner.** `Runner`: grouping, and any number of runners in one process as interleaved
  steps of set-up, workers, heartbeat, cancellation, Close and deferred teardown.
  `RunnerCourse`: what each run goes through, holds and returns, by its place in the course.
- **Redaction.** `Redaction`: `redactMetadata` on UTF-16 code units. `RedactionSpelling`: what it
  finds, told character by character.
- **Shared jsonl template and tails.** `RingTails` (three ring buffers), `JsonlCollector` (one
  run), `JsonlRuns` (series of runs).

Where a promise of the code's documentation holds only under a condition, the model keeps the
code as it is and proves the condition exact:

- a rotation is survived exactly if the new file's size, head or inode gives it away
  (`NextcloudSource.ResumesExactlyIfNoticed`; `YoungLogIsLost` is a run in which none does);
- a failing Collect leaves no trace exactly if it did not rename `nextcloud.jsonl`
  (`NextcloudLedger.FailingRoundIsCleanIffNotRotated`; `RenamedRoundRepeats` is a run in which it did);
- the audit tailer loses nothing exactly if it passes over no file that holds an event
  (`AuditTail.RoundKeepsBooksIff`; `MiddleDayIsLost` is a run in which it does);
- a restart keeps notifications alternating exactly if the state file has each agent as notified
  down when, and only when, the last notification it was sent is a down
  (`LivenessRestarts.RestartAlternatesIffSafe`; `LostSaveNotifiesTwice` is a run in which it has not);
- leaving out an unchanged write leaves the same state.json exactly if that write would have failed
  to save or found the file current (`LivenessWrites.StateFilesAgreeIff`; `LostRecordStaysLost`);
- a report is a line of its own exactly if its file was whole before
  (`ReceiverStore.ReportIsALineIffWhole`), and a restart keeps the index in step with the log exactly
  if state.json said the same about reports (`ReopenedIsOkIff`; `LostSaveForgetsReport`);
- a repeated jsonl run returns nothing exactly if the first returned nothing, or neither rotated the
  file away nor spoiled a line by appending behind a torn one
  (`JsonlRuns.SecondRunReturnsNothingIff`; `TornFileReturnsAgain` is a run in which it did).

## Model

| member | source | states |
|---|---|---|
| NextcloudTail.LastLineEndUnique | collector/optional/nextcloud/nextcloud.go:589-618 | only one offset has a newline right before it (or is 0) and none behind it; `FindLastLineEnd` computes that offset |
| NextcloudTail.FindLastLineEnd | collector/optional/nextcloud/nextcloud.go:589-618 | the backward scan in 64 KiB chunks ends, and returns one past the last newline or 0, for every content and size, newlines at chunk edges included |
| Lines.LinesAppend | collector/optional/nextcloud/nextcloud.go:543-587 | bytes appended to a file put their lines behind the lines already ahead of any offset; nothing read before is read differently after |
| Lines.LinesClose | collector/optional/nextcloud/nextcloud.go:543-545 | a file that is final has the same lines, and its unterminated rest as one more |
| Lines.StopAtIsLastLineEnd | collector/optional/nextcloud/nextcloud.go:589-618 | a reader that is not stopped ends one past the last newline, or stays where it is when it is already behind it |
| NextcloudModel.EventOfLine | collector/optional/nextcloud/nextcloud.go:684-719 | a line that decodes becomes an event with its fields, an unknown level counting as info and a missing app as core; any other line is none |
| NextcloudModel.ScanConsumes | collector/optional/nextcloud/nextcloud.go:543-587 | reading is lossless: lines up to the returned offset and lines still ahead are all lines that were ahead, the events returned are exactly those of the consumed lines, the oversize count counts exactly theirs, and without "more" nothing complete is left |
| NextcloudModel.ScanConserves | collector/optional/nextcloud/nextcloud.go:195-235 | nothing is charged but what is returned: remaining bytes plus cost of the events, and remaining slots plus their number, stay constant, for the budget and for the quota |
| NextcloudModel.ScanStuck | collector/optional/nextcloud/nextcloud.go:220-235 | "more" is reported only when the next complete line holds an event that the budget or the quota really refuses |
| NextcloudTail.Budget.constructor | collector/optional/nextcloud/nextcloud.go:210-218 | the budget of a round is the result limit less the measured envelope |
| NextcloudTail.Budget.Take | collector/optional/nextcloud/nextcloud.go:220-235 | `take` accepts exactly if the cost and a slot are left and the quota allows it or this is the first event of the source, and then charges budget and quota; otherwise nothing changes |
| NextcloudTail.TakeLine | collector/optional/nextcloud/nextcloud.go:560-587 | one line: unparsable lines are passed, oversize events are counted and passed, others are taken or block the reader with `truncated` set |
| NextcloudTail.ReadLine | collector/optional/nextcloud/nextcloud.go:546-587 | one turn of the reading loop: at the end, no room, passed, or passed and last, with the next offset one past the line |
| NextcloudTail.ReadFrom | collector/optional/nextcloud/nextcloud.go:543-587 | the loop over offset, output, budget and counters computes the whole scan |
| NextcloudTail.ReconcileInPlace | collector/optional/nextcloud/nextcloud.go:401-437 | a shrunk file, a changed head or a changed inode resets the position in place and keeps the old one for `.1`; inode and head are refreshed |
| NextcloudTail.DrainInPlace | collector/optional/nextcloud/nextcloud.go:438-476 | draining `.1` and then the current file in place equals its value semantics: a `.1` that is not the file it was is dropped, one cut short keeps its new offset |
| NextcloudTail.ReadSourceFile | collector/optional/nextcloud/nextcloud.go:370-476 | the in-place position update of one source equals its value semantics on all branches: directory, first contact, rotation, draining |
| NextcloudTail.Collector.ReadInOrder | collector/optional/nextcloud/nextcloud.go:274-289 | the first source gets half of the budget as its quota, the second all that is left |
| NextcloudTail.Collector.ReadSources | collector/optional/nextcloud/nextcloud.go:264-294 | both sources in the order of the round's parity; the result lists nextcloud.log first and the next state holds both new positions |
| NextcloudTail.Collector.AppendEvents | collector/optional/nextcloud/nextcloud.go:297-320 | undo mark, pending save, append, rotation, with every one of them failing |
| NextcloudTail.Collector.CollectRound | collector/optional/nextcloud/nextcloud.go:237-327 | a whole Collect on the data directory, with every fault, equals its value semantics |
| NextcloudState.StateRoundTrip | collector/optional/nextcloud/nextcloud.go:620-682 | a saved state is loaded as it was; only well-formed positions survive loading |
| NextcloudState.LoadState | collector/optional/nextcloud/nextcloud.go:620-667 | whatever the state file holds, what is loaded is well-formed: bad heads, empty paths and bad undo marks are dropped |
| NextcloudState.DamagedEntryStartsOver | collector/optional/nextcloud/nextcloud.go:646-655 | a source starts over if and only if its entry is missing or damaged (no path, no or a negative offset, an unusable head); a damaged rest of `.1` costs only that rest |
| NextcloudState.CollectOutcome | collector/optional/nextcloud/nextcloud.go:237-327 | without logs there is nothing to collect; a Collect without faults fails exactly if a log is a directory; one that succeeds met no fault in a step it depends on |
| NextcloudState.CollectedIsAppended | collector/optional/nextcloud/nextcloud.go:297-325 | after a successful Collect the local copy is what recovery left of it followed by the returned events, renamed exactly if that exceeds 10 MiB |
| NextcloudState.ForeignCopyIsKept | collector/optional/nextcloud/nextcloud.go:345-368 | recovery leaves alone a copy that has not grown past the mark or begins differently |
| NextcloudIncremental.RoundsLoseNothing | collector/optional/nextcloud/nextcloud.go:543-587 | over any number of reads of a growing file with any allowances, events sent so far followed by the events of the lines ahead are the events of the whole file |
| NextcloudIncremental.AmpleReadsAll | collector/optional/nextcloud/nextcloud.go:543-587 | a reader whose allowance covers everything is not cut short |
| NextcloudIncremental.IncrementalIsOneShot | collector/optional/nextcloud/nextcloud.go:543-587 | reading round by round with any budgets gives the same events and the same offset as one unlimited read, as soon as the last round was not cut short |
| NextcloudIncremental.RoundsKeepBoundary | collector/optional/nextcloud/nextcloud.go:546-587 | from a line boundary every later offset is a line boundary, so no line is ever split between two rounds |
| NextcloudSource.ReconcileResumes | collector/optional/nextcloud/nextcloud.go:401-437 | after a noticed rotation the position is in step with the files found, `.1` included where the rest of the old generation is there, and exactly the same lines are ahead of it as before the rotation |
| NextcloudSource.DrainAdvances | collector/optional/nextcloud/nextcloud.go:438-476 | draining `.1` and then the current file consumes a first part of the pending lines and returns exactly their events |
| NextcloudSource.AppendKeepsAccount | collector/optional/nextcloud/nextcloud.go:9-31 | writing to the log keeps the account of lines seen and lines ahead |
| NextcloudSource.RotateKeepsAccount | collector/optional/nextcloud/nextcloud.go:9-31 | a copytruncate or create rotation keeps the account; only the undrained rest of a `.1` that it overwrites is given up |
| NextcloudSource.RoundKeepsAccount | collector/optional/nextcloud/nextcloud.go:370-476 | one round of one source: the lines it is done with are the first ones pending, in order, the events returned are exactly theirs, and the account still balances |
| NextcloudSource.FirstRoundOpensAccount | collector/optional/nextcloud/nextcloud.go:382-399 | first contact starts at the end of the last complete line and returns nothing |
| NextcloudSource.ResumesExactlyIfNoticed | collector/optional/nextcloud/nextcloud.go:401-437 | after one rotation the next round goes on at exactly the right byte if and only if the new file is shorter than what had been read, does not begin as the old one did, or has another inode - or the wrong guess changes nothing |
| NextcloudSource.RotationIsSurvived | collector/optional/nextcloud/nextcloud.go:401-437 | in terms of what happens to the log: a create rotation that brings an inode of its own, and any rotation after which the bytes written are fewer than had been read or begin differently, leaves exactly the unread rest of the old file and then all of the new one to be read |
| NextcloudSource.RecordsWhatItFound | collector/optional/nextcloud/nextcloud.go:428-436 | after each look at the file the position holds its inode and its first 512 bytes, or all of them |
| NextcloudSource.TakesOverExactly | collector/optional/nextcloud/nextcloud.go:411-424 | after a rotation the rest of `.1` is taken over, from the old offset, unless `.1` is missing, a directory, shorter than what had been read, begins differently, or (of a file seen empty) has an inode that cannot be the old one |
| NextcloudSource.ForeignRestIsDropped | collector/optional/nextcloud/nextcloud.go:438-465 | a half-drained `.1` goes on to be read exactly while it is as long as had been read, begins as it did and has its inode; otherwise only the current file is read |
| NextcloudSource.PathChangeStartsOver | collector/optional/nextcloud/nextcloud.go:373-399 | a source is unreadable exactly if its path is a directory; without a position, or with that of another path, it starts at the last line end with the head and inode found, reads and spends nothing |
| NextcloudSource.YoungLogIsLost | collector/optional/nextcloud/nextcloud.go:401-437 | a concrete run outside the condition: a file that was empty when last seen and is then written and copytruncated is not noticed, and its lines are never read |
| NextcloudLedger.RecoverTwice | collector/optional/nextcloud/nextcloud.go:345-368 | recovery is idempotent |
| NextcloudLedger.WriteEventsIsUndoable | collector/optional/nextcloud/nextcloud.go:297-343 | whatever step of the append fails, the saved positions do not move, and the mark on disk takes the local copy back to what it was before |
| NextcloudLedger.FinishKeepsLedger | collector/optional/nextcloud/nextcloud.go:297-327 | append and final save together: events count as written exactly if the positions were saved |
| NextcloudLedger.RoundKeepsLedger | collector/optional/nextcloud/nextcloud.go:253-325 | one Collect, whatever fails: a failing one leaves positions and settled content as they were unless it renamed the file, a successful one adds exactly its events |
| NextcloudLedger.FailingRoundIsCleanIffNotRotated | collector/optional/nextcloud/nextcloud.go:311-325 | a failing round leaves the account of written events as it was if and only if it did not rename the local copy; the next round reads the same events again |
| NextcloudLedger.RenamedRoundRepeats | collector/optional/nextcloud/nextcloud.go:311-325 | a concrete run outside the condition: one event makes the copy too large, the rename goes through and the final save fails; the event is returned once and stands both in `.1` and in the new copy |
| NextcloudRuns.RunKeepsBooks | collector/optional/nextcloud/nextcloud.go:237-327 | an invariant over every run of appends, rotations and rounds with faults: both sources' accounts balance and the undo mark is usable |
| NextcloudRuns.ExactlyOnce | collector/optional/nextcloud/nextcloud.go:9-31 | in every run the events returned for a source are those of its lines since the first contact, in order and never twice; the only others missing are the undrained rest of a `.1` overtaken by a further rotation |
| NextcloudRuns.LocalCopyRecordsReturned | collector/optional/nextcloud/nextcloud.go:297-325 | after any successful round, files renamed away plus nextcloud.jsonl are what was there before plus exactly the events returned, in order, in every run in which no round renames the file and then fails |
| NextcloudBounds.ReadBothConserves | collector/optional/nextcloud/nextcloud.go:264-294 | both sources together spend at most the whole budget and return at most 1000 events |
| NextcloudBounds.ResultFits | collector/optional/nextcloud/nextcloud.go:195-218 | the serialized result never exceeds 512 KiB for any backlog of both sources, once the envelope fits and the skipped counter stays below 10^17 (which includes the ten digits reserved for it) |
| NextcloudBounds.EveryResultFits | collector/optional/nextcloud/nextcloud.go:62-71 | the same for whatever Collect returns: no more than 1000 events, no more than 512 KiB |
| NextcloudBounds.RoundMoves | collector/optional/nextcloud/nextcloud.go:274-295 | a successful round never leaves more lines waiting, leaves fewer for the source read first, and gives the next turn to the other source |
| NextcloudBounds.NoStarvation | collector/optional/nextcloud/nextcloud.go:220-235 | of any two successive successful rounds without a rotation between them, whatever failing rounds and appends lie between, each source with a line waiting gets past at least one line |
| NextcloudBounds.BacklogDrains | collector/optional/nextcloud/nextcloud.go:274-295 | when nothing more is written, two successful rounds per waiting line drain both sources |
| NextcloudBounds.FirstSuccessRuns | collector/optional/nextcloud/nextcloud.go:237-327 | the first successful round of any run from a fresh installation brings the tailer into the state that the progress results start from |
| NextcloudBounds.EverythingIsReturned | collector/optional/nextcloud/nextcloud.go:9-31 | from a fresh installation, after any run up to a first successful round and then two successful rounds per waiting line with nothing written, the events returned for a source are exactly those of all lines of all its generations since the first contact, unless a rotation gave some up |
| NextcloudShares.SourceShare | collector/optional/nextcloud/nextcloud.go:195-235 | one source in one round returns events exactly as long as they fit: all of them into what is left of the report, and more than one also into the source's quota; `truncated` is set exactly if lines are left, and then the first of them holds an event that does not fit any more |
| NextcloudShares.BudgetIs | collector/optional/nextcloud/nextcloud.go:210-218 | a report has 1000 events and 524288 bytes less 98 for the envelope and less the path |
| NextcloudShares.RoundIsShared | collector/optional/nextcloud/nextcloud.go:264-294 | a successful round: the source whose turn it is returns more than one event only within half of the bytes and 500 events, and stops only where the next event would exceed this or the whole budget; the other source stops only when the report is full; the result lists nextcloud.log's events first, `truncated` says exactly whether lines are left in either log, and the skipped count is that of the oversize lines read |
| NextcloudShares.SecondIsServed | collector/optional/nextcloud/nextcloud.go:202-235 | the source read second does not go empty-handed while its next event is no larger than half of the budget, unless the other one's only event took more than its half |
| AuditTail.ReadFrom | collector/optional/audit_log_tail/audit_log_tail.go:171-222 | reading goes forward, stays in the file and returns no more than the limit, if there is one |
| AuditTail.ReadFromIsLossless | collector/optional/audit_log_tail/audit_log_tail.go:171-222 | events found and events still ahead are the events of all complete lines; it stops early only at the limit |
| AuditTail.Collector.ReadFile | collector/optional/audit_log_tail/audit_log_tail.go:171-222 | the loop over lines, limit and offset computes that read; an unterminated last line stays |
| AuditTail.Collector.Collect | collector/optional/audit_log_tail/audit_log_tail.go:64-160 | rollover, same file, first contact and a failing save: the state moves only if it was saved |
| AuditTail.AtMostTheLimit | collector/optional/audit_log_tail/audit_log_tail.go:35-44 | no Collect returns more than 5000 events, also when it finishes the old file and starts the new one |
| AuditTail.NewestIsReadFromItsStart | collector/optional/audit_log_tail/audit_log_tail.go:94-145 | at first contact, or when the followed file is gone or the newest one has been cut, the newest file is read from its start, up to 5000 events, and followed from there |
| AuditTail.RoundKeepsBooksIff | collector/optional/audit_log_tail/audit_log_tail.go:94-127 | a round loses nothing if and only if it passes over no file that holds an event: files between the followed one and the newest one are never read |
| AuditTail.MiddleDayComesAbout | collector/optional/audit_log_tail/audit_log_tail.go:94-127 | a concrete way outside the condition: a new day, one line, and the next day, before any round |
| AuditTail.MiddleDayIsLost | collector/optional/audit_log_tail/audit_log_tail.go:94-127 | from there the line's event is ahead, but neither the next round nor any later one returns it |
| AuditTail.ExactlyOnce | collector/optional/audit_log_tail/audit_log_tail.go:77-159 | over every run in which no further file appears before the old one is drained, events returned and events ahead are exactly those of all complete lines since the first contact, in order; a failed save only means reading again |
| AuditTail.CaughtUpReturnsAll | collector/optional/audit_log_tail/audit_log_tail.go:77-159 | once the newest file is followed to its end, everything written since the first contact has been returned |
| ReportFiles.DateRoundTrip | core/receiver/store.go:154-161 | formatting a calendar date and parsing it back is the identity |
| ReportFiles.DayOfReportName | core/receiver/store.go:329-344 | the day of a report file is read back from its name for every agent id and every day |
| ReportFiles.NamesAreInjective | core/receiver/store.go:154-161 | no two agents and no two days share a file name |
| ReportFiles.ReportNameLooksLike | core/receiver/store.go:159 | the name of one report file, spelled out |
| ReportFiles.IdsAreMadeOf | core/receiver/store.go:43-52 | a usable id has 1 to 64 characters from A-Z, a-z, 0-9 and the dash, not starting with the dash |
| ReportFiles.Cleanup | core/receiver/store.go:302-327 | the loop over the directory deletes exactly the report files that have expired; which these are, counted in calendar dates, says `RetentionKeepsRecentDays` |
| ReportFiles.DayNumbersGrow | core/receiver/store.go:302-327 | an earlier date has the smaller day number, leap years included |
| ReportFiles.DayNumbersCountDays | core/receiver/store.go:302-327 | 1 January of year 1 is day 0, and the next date (next day, else first of the next month, else 1 January) is one day later |
| ReportFiles.LeapYearsCount | core/receiver/store.go:302-327 | the days before a year in closed form: 365 each, one more for every fourth year, less the centuries, plus every fourth century |
| ReportFiles.EveryLaterDateIsReached | core/receiver/store.go:302-327 | stepping from date to date reaches every later date, so the retention result covers every pair of dates |
| ReportFiles.RetentionKeepsRecentDays | core/receiver/store.go:302-344 | a report dated n next-dates before today is deleted if and only if n exceeds the retention in days, or equals it and the day is past its first nanosecond; day numbers do not occur in the statement |
| ReportFiles.TodayIsKept | core/receiver/store.go:302-327 | with a retention of at least a day, the file of today never expires |
| ReceiverStore.Store.Append | core/receiver/store.go:163-212 | append with every fault: an invalid id or a failing open changes nothing, a failing write leaves a first part of the line in the file, a failing close leaves the line but no change of state, a written report updates the agent, a failing save reports an error but keeps the update, and only a saved report is followed by the clean-up |
| ReceiverStore.Store.States | core/receiver/store.go:214-224 | a snapshot of every agent's state, each exactly once, sorted by agent id |
| ReceiverStore.Store.SetLiveness | core/receiver/store.go:226-238 | changes the three liveness fields of a known agent and nothing else |
| ReceiverStore.Store.EnsureAgent | core/receiver/store.go:240-253 | refuses an unusable id, leaves a known agent as it is, and otherwise adds a blank one with the display name; a failing save is reported but the agent stays |
| ReceiverStore.UpdateIgnoresVerdict | core/receiver/store.go:196-207 | how a report updates a state neither depends on the liveness fields nor changes them or the id |
| ReceiverStore.ReportIsShown | core/receiver/store.go:196-207 | label, type, time seen and time reported are the report's; host name, root disk and load change exactly if the report carries a usable one, each load average by itself |
| ReceiverStore.AppendOutcome | core/receiver/store.go:163-212 | an append succeeds exactly without a fault; a fault up to the close leaves index and state.json alone, one in the save leaves state.json alone, and no fault deletes or cuts a report |
| ReceiverStore.EnsuredIsListed | core/receiver/store.go:240-253 | a configured agent with a usable id is listed as never seen, not down and with nothing notified; a known one is left alone |
| ReceiverStore.BeforeIsLexicographic | core/receiver/store.go:222 | the order of the snapshot is the lexicographic one: a proper prefix first, else by the first character that differs |
| ReceiverStore.OpKeepsIndex | core/receiver/store.go:163-253 | whatever operation is interleaved and whatever fails in it, the index stays the replay of exactly the reports whose write and close succeeded |
| ReceiverStore.ReopenedIsOkIff | core/receiver/store.go:255-275 | a reopened store still equals the replay of the log if and only if state.json says the same about reports as the index did |
| ReceiverStore.LostSaveForgetsReport | core/receiver/store.go:204-212 | a concrete run outside the condition: a new agent's report is accepted, its save fails, and after a restart the index knows nothing of it |
| ReceiverStore.OpKeepsSaved | core/receiver/store.go:163-293 | without a report or an agent since the last save that went through, state.json says the same about reports as the index |
| ReceiverStore.OpKeepsOnDisk | core/receiver/store.go:163-212 | every accepted report that got a line of its own stays a line of its file until the file is deleted |
| ReceiverStore.IndexAgreesWithLog | core/receiver/store.go:163-293 | over every run, restarts included when everything had been saved: the index is the replay of the accepted reports, saving and loading gives it back, and the reports are lines of the files that are left |
| ReceiverStore.SaveLoadIdentity | core/receiver/store.go:255-293 | load inverts save for states whose keys are usable ids and their own agent's id |
| ReceiverStore.OpenedStoreIsOk | core/receiver/store.go:255-275 | whatever state.json holds, a freshly opened store satisfies the invariants: it has exactly the entries with a value and a usable id, each under its own id |
| ReceiverStore.ReportIsALineIffWhole | core/receiver/store.go:180-193 | an appended report is a line of its own if and only if its file ended in a newline before; behind a torn line it shares that line |
| ReceiverStore.AppendedReportIsKept | core/receiver/store.go:163-212 | appending keeps the report it appends at the end of today's file, as a line of its own exactly if that file was whole, and deletes exactly the expired other files |
| Liveness.Checker.Check | core/receiver/liveness.go:67-150 | the loop over a snapshot: what is sent and what is stored, for every outcome of notifications and saves |
| Liveness.Checker.CheckAgent | core/receiver/liveness.go:85-146 | one agent: judgement, at most one notification, retry after a failure, write-back only of a change |
| Liveness.ThresholdOrder | core/receiver/liveness.go:25-34 | a positive threshold of its own decides for an agent, whatever the default is; then a positive default; else 15 minutes |
| Liveness.UnseenIsNotJudged | core/receiver/liveness.go:78-83 | an agent that never reported is neither judged nor notified |
| Liveness.StepKeepsTracked | core/receiver/liveness.go:72-146 | every step of every interleaving, restarts of any kind included, keeps the snapshot of the running check equal to the store in down, downSince and notified |
| Liveness.AttemptIsNext | core/receiver/liveness.go:99-122 | a transition is attempted only if it is the next one in the alternation |
| Liveness.StepStaysHonest | core/receiver/liveness.go:72-146 | every step keeps: the notifications of every agent alternate, and memory or the write-back under way has it as notified down exactly if the last one sent is a down |
| Liveness.NotificationsAlternate | core/receiver/liveness.go:72-150 | for every agent the notifications that went out alternate down, recovered, down, starting with down, over every interleaving of reports with snapshot, notification and write-back, whatever saves fail, and across safe restarts |
| LivenessRestarts.RestartAlternatesIffSafe | core/receiver/store.go:255-275 | a restart keeps every agent's notifications alternating, however the run goes on, if and only if the state file has each agent as notified down exactly when the last notification it was sent is a down |
| LivenessRestarts.UnsafeRestartBreaks | core/receiver/liveness.go:99-146 | otherwise the agent's next report and the next check are enough to send two downs in a row or a recovery without a down |
| LivenessRestarts.SavedIsSafe | core/receiver/store.go:277-293 | right after a successful save with no write-back pending, a restart is safe |
| LivenessRestarts.AlternatesAcrossSavedRestarts | core/receiver/liveness.go:72-150 | with every restart taken right after a successful save, notifications alternate in every interleaving, whatever other saves and notifications fail |
| LivenessRestarts.LostSaveNotifiesTwice | core/receiver/liveness.go:124-146 | a concrete unsafe restart: a save that fails between a notification and a restart makes the same outage be notified twice |
| LivenessProperties.LoopIsARun | core/receiver/liveness.go:67-150 | the loop of Check is one run of the interleaved machine, so what holds of all interleavings holds of it |
| LivenessProperties.StepStaysCoherent | core/receiver/liveness.go:85-94 | Down holds exactly if DownSince is set, in memory and on disk, after every step of every interleaving |
| LivenessWrites.SkippingIsInvisible | core/receiver/liveness.go:141-146 | in every interleaving, leaving out unchanged writes notifies the same and leaves the same agents and reports as writing every judgement through SetLiveness |
| LivenessWrites.FollowingIsARun | core/receiver/liveness.go:141-146 | the checker that follows such an interleaving takes a run of its own |
| LivenessWrites.EveryRunIsFollowed | core/receiver/liveness.go:141-146 | and each of its runs follows some run of the checker that always writes, whatever becomes of the additional saves |
| LivenessWrites.StateFilesAgreeIff | core/receiver/liveness.go:141-146 | on disk the two are the same all along if and only if every write left out would have failed to save or found state.json current |
| LivenessWrites.LostRecordStaysLost | core/receiver/liveness.go:141-146 | a concrete run outside the condition: after a failed save the record of a notified outage stays lost at the next check, where writing would have saved it |
| LivenessOutages.CheckAgentIsCheckOne | core/receiver/liveness.go:85-146 | one turn of the loop for an agent as it is in the store changes that agent by one check of it and nothing else |
| LivenessOutages.RunIsItsTicks | core/receiver/liveness.go:72-150 | in every interleaving the judgement of an agent and the notifications attempted for it are those of the run's checks of it, one after the other |
| LivenessOutages.OutageIsNotifiedOnce | core/receiver/liveness.go:85-139 | through an unbroken outage, in every interleaving, DownSince stays at its first check, and the notification is attempted at each check until delivered and never after |
| LivenessOutages.OutageEnds | core/receiver/liveness.go:85-122 | the check that finds the agent alive clears the outage and attempts a recovery exactly if the outage was notified |
| LivenessOutages.RecoveryIsNotifiedOnce | core/receiver/liveness.go:99-139 | on the way back the recovery is attempted at each check until delivered and never after |
| Runner.GroupBy | agent/groups.go:3-11 | one group per name that occurs, holding the values of that name in source order |
| Runner.TaskInItsGroupOnly | agent/groups.go:3-11 | every value is in the group of its own name and in no other |
| Runner.InGroupJoins | agent/groups.go:3-11 | grouping keeps source order: the group of two lists is the one's followed by the other's |
| Runner.WorkerKeepsGroup | agent/runner.go:199-222 | every step of a worker keeps: each failure is deposited or about to be, the slot holds the first deposit, and a worker cancels only after it has deposited |
| Runner.StepKeepsHeld | agent/runner.go:106-195 | every step keeps the stack of defers in the order of acquisition, bounded by how far the run has come |
| Runner.StepKeepsHistory | agent/runner.go:119-187 | every step keeps: what was acquired is what is held followed by what was released, reversed |
| Runner.StepKeepsInv | agent/runner.go:106-237 | every step of every runner in the process keeps all of this, and the guard is held by exactly the runner that holds it on its stack |
| Runner.FirstFailureIsReturned | agent/runner.go:191-236 | once a worker has cancelled the group the slot holds the first deposited error; a run with workers leaves only after all have exited, returns success exactly if no cycle failed under ReturnFailure, and otherwise the first deposited error |
| Runner.ReleasedInReverse | agent/runner.go:119-195 | on every way out all resources are released in exactly the reverse order of acquisition, each once, after all workers; done is signalled at most once and last |
| Runner.RunnersDoNotOverlap | agent/runner.go:121-124 | at most one runner of a process is past the guard at any time |
| Runner.ClosedMeansReleased | agent/runner.go:297-315 | when Close returns nil the runner holds nothing, no heartbeat runs and every worker has exited |
| Runner.ClosedStaysClosed | agent/runner.go:106-117 | and no later step starts anything on it again |
| RunnerCourse.StepKeepsCourse | agent/runner.go:106-187 | every step of a run keeps it on its course: the setup steps come in the fixed order, each acquires what its place says, and none follows the one that ends the run |
| RunnerCourse.WorksUnderItsLock | agent/runner.go:119-187 | every reachable runner has acquired exactly what the steps it went through yield, and until it leaves it holds all of it: its file lock from TakeLock on if one is configured, its timeout, every service with a stop; none of its setup steps has failed, and its heartbeat runs exactly if licensed until it is cancelled |
| RunnerCourse.ReturnsExactly | agent/runner.go:106-237 | a run leaves with a setup error if and only if a setup step failed, which then was its last step; with `already running` if and only if it found the guard taken; with the cancellation if and only if it was cancelled before a service; otherwise, after the whole setup, with its only cycle's outcome, or after all workers have exited with success exactly if no cycle failed under ReturnFailure |
| RunnerCourse.CanceledByWhom | agent/runner.go:117-236 | a run is cancelled by its parent or timeout, by Close while it runs, by a worker after its failure, or on its way out, and by nothing else |
| Redaction.FoldSplit | scripts/secrets-scan.dual.mjs:66 | folding works piecewise wherever no run of slashes is cut |
| Redaction.FoldTwice | scripts/secrets-scan.dual.mjs:66 | folding a folded text changes nothing |
| Redaction.Normalize | scripts/secrets-scan.dual.mjs:69-77 | the single pass computes exactly the folded text, and its two arrays map each folded character to its original stretch, whole runs of slashes included |
| Redaction.OccurrenceIsWindow | scripts/secrets-scan.dual.mjs:88 | the original stretch of an occurrence in the folded text is a stretch of whole slash runs that folds to the needle |
| Redaction.WindowIsOccurrence | scripts/secrets-scan.dual.mjs:88 | and every such stretch is found as an occurrence |
| Redaction.AddOccurrences | scripts/secrets-scan.dual.mjs:88 | the indexOf loop finds every occurrence of a needle, overlapping ones included, and nothing else |
| Redaction.DropTailIsLongest | scripts/secrets-scan.dual.mjs:85 | the suffix expression removes the longest tail made of dots, hyphens, underscores and ".git" |
| Redaction.EndsAreOptional | scripts/secrets-scan.dual.mjs:81-87 | a value is also found without its leading slashes and trailing dots, and without any tail of dots, hyphens, underscores and ".git", as long as a path is left of it |
| Redaction.FormList | scripts/secrets-scan.dual.mjs:81-87 | the forms of a value, each once |
| Redaction.FindSpans | scripts/secrets-scan.dual.mjs:78-89 | the spans are exactly the stretches that fold to a form of a value, skipping empty, non-string and already redacted values |
| Redaction.Merge | scripts/secrets-scan.dual.mjs:90-95 | merged spans are sorted, at least one character apart, and cover exactly the positions of the raw spans |
| Redaction.Render | scripts/secrets-scan.dual.mjs:96-98 | walking over the merged spans replaces each maximal run of marked characters by one mark and keeps the rest |
| Redaction.EscapeNamesTheCode | scripts/secrets-scan.dual.mjs:98 | the escape of a control character is a backslash, a u and four lower-case hexadecimal digits that give its code |
| Redaction.EscapedIsPrintable | scripts/secrets-scan.dual.mjs:98 | no control or bidirectional formatting character is left in the output |
| Redaction.PrintableStays | scripts/secrets-scan.dual.mjs:98 | what can be printed is printed as it is |
| Redaction.EscapeJoins | scripts/secrets-scan.dual.mjs:98 | each character is escaped by itself |
| Redaction.RedactMetadata | scripts/secrets-scan.dual.mjs:67-99 | exactly the positions in stretches that fold to a form of a value are redacted, one mark per maximal run; everything else is kept up to escaping; a non-string gives "(unavailable)" |
| Redaction.RunsStayWhole | scripts/secrets-scan.dual.mjs:71-76 | a run of slashes is redacted as a whole or not at all |
| RedactionSpelling.AnySpellingIsHidden | scripts/secrets-scan.dual.mjs:66-98 | a text spelled like a value - the same letters up to ASCII case, runs of slashes or backslashes of any length at the same places - leaves nothing but the mark |
| RedactionSpelling.FoldAlikeIff | scripts/secrets-scan.dual.mjs:66 | two texts fold alike if and only if they are spelled alike, told character by character |
| RedactionSpelling.LetterByLetterIsAlike | scripts/secrets-scan.dual.mjs:66 | position by position the same letter up to case, or a separator in both, is spelled alike |
| RedactionSpelling.FoldedIffPlain | scripts/secrets-scan.dual.mjs:66 | the texts that folding leaves as they are: no capital letter, no backslash, no two slashes in a row |
| RedactionSpelling.NeedlesOf | scripts/secrets-scan.dual.mjs:79-80 | looked for are the forms of exactly the string values that are neither empty nor "[redacted]" |
| RedactionSpelling.HitIff | scripts/secrets-scan.dual.mjs:67-95 | a character is replaced if and only if it lies in a stretch that cuts no run of separators and is spelled like a form of a value looked for |
| RedactionSpelling.SpellingInsideIsHidden | scripts/secrets-scan.dual.mjs:67-98 | a text spelled like a value is replaced inside any longer text, unless a run of separators goes on across its ends |
| RedactionSpelling.IsTailIff | scripts/secrets-scan.dual.mjs:85 | the tails are exactly the sequences of dots, hyphens, underscores and ".git" |
| RedactionSpelling.FormsIff | scripts/secrets-scan.dual.mjs:81-87 | the forms of a value are the folded value and, as long as a slash is left, the value without leading slashes and trailing dots, and that without its longest tail, unless it then ends in a slash; no others |
| Redaction.NoOccurrenceNoChange | scripts/secrets-scan.dual.mjs:96-98 | without an occurrence the text is unchanged before escaping |
| RingTails.HoldsLast | collector/jsonl.go:165-173 | reading from the slot after the newest line yields the last lines, oldest first |
| RingTails.PutHolds | collector/jsonl.go:157-161 | storing a line in the slot of its number modulo n keeps the latest lines |
| RingTails.TailLinesReader | collector/jsonl.go:146-174 | exactly the last n lines for n > 0, nothing for n <= 0, an error if the scan fails |
| RingTails.TailLines | collector/rental/apache_log.go:173-201 | exactly the last n lines, 500 when n <= 0, an error if the scan fails |
| RingTails.TailFile | collector/vps/updates/updates.go:137-172 | the last n lines joined by newlines; empty when the file cannot be opened, n <= 0 or the scan fails |
| RingTails.JoinedCutsBack | collector/vps/updates/updates.go:171 | the joined text gives the lines back, so nothing is lost against the other two tails |
| JsonlCollector.FreshIsExact | collector/jsonl.go:60-73 | a key is among the returned records exactly if it occurs in the tail and was not in the seen set |
| JsonlCollector.FreshIsDistinct | collector/jsonl.go:60-73 | the returned records have pairwise distinct keys |
| JsonlCollector.FreshJoins | collector/jsonl.go:60-73 | returned records stay in the order of the log: those of two stretches are the first one's, then the second one's without the keys of the first |
| JsonlCollector.JsonlJoins | collector/jsonl.go:86-96 | records are written in order, each as one line; one that cannot be marshalled is left out |
| JsonlCollector.RunAppendsAndRotates | collector/jsonl.go:99-125 | a run that returns records has them behind what the file held, and renames the file exactly if that exceeds the limit, 10 MiB unless one is set |
| JsonlCollector.AppendedIsSeen | collector/jsonl.go:26-44 | after an append to a file of whole lines, LoadSeen sees the old keys and the appended ones and nothing else |
| JsonlCollector.AppendedIsGlued | collector/jsonl.go:76-97 | after an append to any file: the keys of its complete lines, of the line that the first new record shares with the torn rest, and of the other new records |
| JsonlCollector.Collector.LoadSeen | collector/jsonl.go:26-44 | the keys of all decodable lines |
| JsonlCollector.Collector.ParseTail | collector/jsonl.go:46-74 | the first occurrences, in order, of parsed tail records whose key is not seen |
| JsonlCollector.Collector.AppendJsonl | collector/jsonl.go:76-97 | one line per record that can be marshalled; a failing flush leaves a first part of the bytes |
| JsonlCollector.Collector.Collect | collector/jsonl.go:108-125 | load, parse, append and rotate, with every one of them failing |
| JsonlRuns.NoKeyTwice | collector/jsonl.go:108-125 | over any number of runs on logs that change in any way, as long as no run rotates the file or spoils a line by appending behind a torn one, no key is returned twice nor one that was in the file before; failing opens, marshals, flushes and renames are allowed |
| JsonlRuns.WholeIsSmooth | collector/jsonl.go:108-125 | a file of whole lines is never spoiled, so only rotation is left to exclude |
| JsonlRuns.SecondRunReturnsNothingIff | collector/jsonl.go:108-125 | with an unchanged log and no failure the second run returns nothing if and only if the first returned nothing, or did not rotate the file away and the file was whole - or the line shared with its torn rest reads as the first new record and the rest held no key of the tail that is nowhere else |
| JsonlRuns.TornFileReturnsAgain | collector/jsonl.go:76-97 | a concrete run outside the condition: after a flush that failed in the middle of a line, two runs on an unchanged log both return the same record, without a rotation and without a further failure |
| JsonlRuns.FailedFlushIsNeverReturned | collector/jsonl.go:108-125 | every record whose line got through before a flush failed is returned by no run: not by the failing one, and by none of any smooth runs after it, on whatever logs |

## Left out

Abstractions of the model:

- Head fingerprints are the leading bytes themselves, that is, a collision-free digest.
- JSON decoding and encoding, log-line parsers, timestamps and record keys are parameters; encoding an event or a state always succeeds, encoding a jsonl record may fail.
- A Collect sees one snapshot of the file system; changes between stat and read, and writers that go on appending to `.1`, are not modelled.
- Saving the state file is one atomic step that succeeds or fails; creating directories, reading and recovering are single fault flags.
- The scanner's maximum line length is not modelled; a scan that fails is a flag.
- State-file keys other than the two sources', the round counter and the undo mark are not kept in the model.
- `LivenessWrites.SkippingIsInvisible`: within one life of the receiver; a restart reads state.json, and `StateFilesAgreeIff` says when that is the same.
- `ReceiverStore.OpKeepsOnDisk`: says that the reports are there, not in which order or how often.
- Labels, silence durations and other text of a notification are not modelled; an event is its kind, agent and time. Time differences do not saturate.
- A state.json that exists but cannot be read or parsed keeps the receiver from starting; that error is not modelled.
- Report validation, signatures and the HTTP handlers in front of the store.
- `Runner`: Run and Close are modelled as the steps visible to other goroutines instead of as a class, because what is proved is about their interleavings. A call of Run on a closed or started runner changes nothing and is not a step. What a cycle does (collect, encode, send, refresh a token) is reduced to failing or not, including the policies that turn an error into success.
- `Runner`: a service's stop has a timeout of its own and its error is only logged; every Close or parent cancellation is one step.
- `JsonlRuns.NoKeyTwice`: rotation and spoiled lines are excluded, as both make keys come back; `SecondRunReturnsNothingIff` says exactly when.
- `JsonlCollector`: a jsonl file that cannot be opened for reading is treated as empty, as the code does; a scan error while reading it is not modelled.
- `AuditTail`: in runs, file names are distinct and a new file sorts last; a file shorter than the saved offset is reread from its start, as in the code, but runs in which a file shrinks are not considered. I/O errors while reading end the round like a failing save.
- Redaction: values are a sequence; a JavaScript iterable is read once.

Parts of the repository that are not modelled:

- HTTP clients and servers, webhook delivery, request signing transport, TOML loading, systemd units and install scripts.
- HMAC, ed25519, JWT and base64.
- License policy, token cache, outcome classification, receipt validation, permission and path checks.
- Collectors that run commands, and regular-expression line parsers.
- Kernel version comparison: mixed numeric and alphanumeric tokens are not ordered transitively, so no ordering law holds.
- The timestamp-skew check of the report handler, and the dashboard.
