# Verified model of TBAi's run, request and stream logic

TBAi is a local server for AI chat. This project models, in Dafny 4.11, the parts of it
that carry their own guarantees, and proves them for every input, every run or every
interleaving:

- **Chat runs** (`RunHistory`, `ChatRuns`, `RunCauses`, `ChatRunStore`, `ChatRoutes`,
  `DurableRow`). Many actors race to end one run. Every handler is one atomic step; the history
  of what the outside can observe stays in order over every sequence of steps, and every end
  has its cause among them. `DurableRow` says what becomes of the one verdict among the other
  writers of the durable row.
- **Idempotent create** (`IdempotentCreate`, `CreateFlights`, `CreateRoute`). A flight map, a
  map of completed keys and a unique column, with a scheduling point at every await, and with
  restarts, expiry, failures and deletes in between.
- **Overflow recovery gate** (`OverflowGate`). One stream chosen from at most two provider
  attempts, characterised exactly, effect by effect.
- **History pruner** (`PruneMessages`, `PruneRules`). Five passes proved against a declarative
  rule, that rule against a normal form which one run reaches, and both against the stored
  fields alone.
- **Logger** (`LogRing`, `Throttle`, `Logger`). A wrapping ring that refines a log which only
  grows, a token bucket that is an exact budget over all windows, and live-tail readers.
- **CRC-32** (`Crc32`). The table-driven loop against the bit-serial register of section 3.4
  of RFC 2083, and what the checksum detects.
- **Request size** (`ReduceText`, `ReduceMessages`, `ReduceRules`, `Measure`, `Budget`,
  `SizeRules`, `ObservedLimits`). Truncation whose notice depends on its own result, an
  estimate band, the ceiling arithmetic, and a bounded cache under an injective key.
- **Incremental streams** (`EventFraming`, `TerminalStream`). Text in arbitrary chunks,
  timers, caps and order.

`UiMessages`, `Options`, `Integers`, `Texts` and `Decimal` hold the shared vocabulary.
`dafny verify dfyconfig.toml` checks everything.

## How the pieces fit

Code that updates state is a class or a method with loops. Each such method is proved equal
to a function of the old state, and the guarantees are lemmas about those functions. For the
two protocols the functions are steps of a state machine (`ChatRuns.Apply`,
`IdempotentCreate.Apply`): `StepKeeps` is the invariant, the `...EveryRun...` lemmas extend it
to whole runs, and the classes `ChatRoutes.Routes` and `CreateRoute.Route` are proved to take
exactly those steps.

The functions in turn are held to statements that do not use them: `PruneRules`, `ReduceRules`,
`SizeRules`, `RunCauses` and `CreateFlights` say what comes out in terms of the inputs' own
fields, of step sequences and of plain numbers, so that a function that is wrong together with
the method it specifies still fails.

## Where code and documentation differ

Each point comes with lemmas: an input or a run that shows it, and the exact condition.

- `reduceResultText` (src/context/reduce.ts:149-151) calls its fallback strictly bounded. It
  is not below 173 characters: `ReduceText.TinyCapIsExceeded`, `ReduceText.BoundedExactlyWhen`.
  The only production caller (src/context/assemble.ts:232) always uses the cap of 65536
  (src/context/reduce.ts:48), so a smaller cap arises only through the exported option.
- The same fallback keeps a head and reports the whole text as removed:
  `ReduceText.LastResortOverReports`, `ReduceText.RemovedIsExactExactlyWhen`.
- A reasoning trace just over its cap gets longer (src/context/reduce.ts:160-166):
  `ReduceText.TraceJustOverTheCapGrows`, `ReduceText.ReasoningShrinksExactlyWhen`.
- A failed call with a short error text keeps an output of any length
  (src/context/reduce.ts:96-99): `ReduceMessages.FailedCallSendsItsOutput`,
  `ReduceMessages.LongOutputIsSentExactlyWhen`.
- The announcement that throttling ended (src/lib/logger.ts:741-748) is unreachable:
  `Throttle.NeverLifts`, for every bucket and time. `Logger` therefore has no code for it.
- decideBudget says the high end of the band decides acceptance (src/context/budget.ts:189-195);
  it does not: `Budget.HighEndDoesNotDecide`, `Budget.AcceptedExactlyWhen`.
- Two kinds of runs are terminal without a durable verdict from the route, and no others:
  those ended by a setup failure (src/routes/chat.ts:385,614,760,787) and those refused during
  shutdown, which are cancelled from birth (src/services/chat-runs.ts:128-143).
  `ChatRuns.SetupFailureLeavesNoVerdict`, `ChatRuns.RefusedRunHasNoVerdict`,
  `ChatRuns.TerminalWithoutVerdictExactlyWhen`.
- Engaging and disengaging are to announce themselves (src/lib/logger.ts:536-541). Since
  throttling never ends, a scope announces it once per process and every later engagement is
  silent: `Throttle.AnnouncedOnceExactlyWhen`.
- The mirrored verdict is to keep the durable row in agreement with the registry
  (src/routes/chat.ts:150-154). It may come before the row or after an erroneous end of the
  stream: `DurableRow.EarlyCancellationIsLost`, `DurableRow.LateCompletionIsRefused`, and the
  exact condition in `DurableRow.VerdictStandsExactlyWhen`.
- A live-tail reader whose connection broke during a send is never unsubscribed
  (src/routes/logs.ts:221-224): `Logger.BrokenReaderStaysSubscribed` reaches that state, and
  the contract of `Logger.Logger.Abort` says exactly which readers stay subscribed.

## Model

| member | source | states |
|---|---|---|
| RunHistory.ExitsAtMostOnce | src/services/chat-runs.ts:82-92 | In a history in order a run leaves running at most once, and the recorded exit is that one. |
| RunHistory.WritesFollowTheExit | src/routes/chat.ts:894-898 | Verdicts, captured replies and history finalizations of a run each happen at most once and never without the exit they follow. |
| RunHistory.VerdictIsTheExit | src/routes/chat.ts:163-182 | A verdict that was written is the status the run left running with. |
| RunHistory.RepliesAreCompleted | src/routes/chat.ts:1525-1545 | A reply is captured, or a detached history finalized, only for a run that left as completed. |
| RunHistory.TimedOutIsNotCancelled | src/routes/chat.ts:888-891 | A run that was marked timed out leaves as cancelled only if a shutdown came between the mark and its exit. |
| ChatRuns.SettlementExactlyWhen | src/routes/chat.ts:1012-1026 | An ended stream settles as completed exactly with a good reason and outcome, as cancelled exactly when aborted without an error reason. |
| ChatRuns.ExitingAgrees | src/services/chat-runs.ts:83-92 | Leaving running keeps registry and history in agreement, if a timed-out run is not called cancelled. |
| ChatRuns.SweepsOnlyTerminal | src/services/chat-runs.ts:94-117 | No sweep removes a running record. |
| ChatRuns.SweptRegistryIsBounded | src/services/chat-runs.ts:105-115 | After a sweep the registry is within its cap or holds running records only, and has lost none of those. |
| ChatRuns.AbortingAgrees | src/services/chat-runs.ts:214-228 | Shutdown clears the timeout marks of all running runs, in registry and history alike. |
| ChatRuns.EndingKeeps | src/routes/chat.ts:1506-1546 | The end of the provider stream keeps the invariant: reply capture and finalization follow the winning completed verdict. |
| ChatRuns.StepKeeps | src/routes/chat.ts:887-900 | Every step of every actor keeps history order and registry agreement. |
| ChatRuns.EveryRunIsInOrder | src/services/chat-runs.ts:13-19 | The invariant holds after every prefix of every sequence of steps. |
| ChatRuns.RunsSettleOnce | src/services/chat-runs.ts:13-19 | Over every interleaving a run has at most one exit, one verdict, one captured reply and one history finalization. |
| ChatRuns.ExitsAreVerdictsOrSetupFailures | src/routes/chat.ts:894-898 | After every sequence of steps the exits of a run are its verdicts plus its setup failures. |
| ChatRuns.VerdictExactlyWhen | src/routes/chat.ts:378-386 | Over every interleaving a run has exactly one verdict if it ended otherwise than by a setup failure, and none in all other cases. |
| ChatRuns.TerminalWithoutVerdictExactlyWhen | src/services/chat-runs.ts:128-143 | A terminal record lacks a verdict exactly when a setup failure ended its run or the run was refused during shutdown. |
| ChatRuns.RefusedRunHasNoVerdict | src/services/chat-runs.ts:128-143 | A run created after shutdown began is cancelled without verdict and without setup failure. |
| ChatRuns.SetupFailureLeavesNoVerdict | src/routes/chat.ts:378-386 | Creating a run and failing its setup ends it without any verdict. |
| ChatRuns.SweepsAreDetermined | src/services/chat-runs.ts:94-117 | At every point of every run there is exactly one set of records a sweep may remove, equal ages included. |
| ChatRuns.LiveRunsAreRegistered | src/services/chat-runs.ts:105-106 | Over every interleaving the running records are exactly the runs that were opened and have not ended. |
| ChatRuns.VerdictsMatchTheRegistry | src/routes/chat.ts:150-162 | Over every interleaving a verdict the route wrote equals the registry's status, and a captured reply means completed. |
| ChatRuns.TimeoutsAreNotCancellations | src/routes/chat.ts:888-891 | Over every interleaving a run that timed out ends as cancelled only if a shutdown came in between. |
| RunCauses.RunningRunEnds | src/routes/chat.ts:1299-1320 | Whether one step of any actor ends a running run, and with which status: a cancellation of a timed-out run is a failure. |
| RunCauses.EndsExactlyWhen | src/routes/chat.ts:887-900 | Over every interleaving a run has ended with a status exactly when some step, taken while it ran, ends a run so. |
| RunCauses.CausesOfEnds | src/routes/chat.ts:1012-1026 | Completed comes only from a completed stream with one of the four good reasons, cancelled only from an abort, a cancel request or an aborted stream, failed only from those or from something that broke. |
| RunCauses.LeftExactlyWhen | src/routes/chat.ts:1665-1668 | A run counts as left by its client exactly when its connection has dropped. |
| RunCauses.OpenedExactlyWhen | src/services/chat-runs.ts:128-143 | A run is opened exactly by being created before shutdown. |
| RunCauses.ClockExactlyWhen | src/services/chat-runs.ts:160-171 | A running run is marked timed out exactly when its clock rang since its creation and no shutdown came since; the clock ticks while neither happened. |
| RunCauses.EndedRunsHaveNoClock | src/services/chat-runs.ts:83-92 | No clock ticks for a run that has ended. |
| RunCauses.NewRecordIs | src/services/chat-runs.ts:121-159 | A record comes into being only by creation: running, ticking and watched, or cancelled without a clock during shutdown. |
| RunCauses.WatchMoves | src/services/chat-runs.ts:184-199 | A run loses its watcher by a dropped connection or a read error while it runs, and has one again by a resume alone. |
| RunCauses.ChangesAreStamped | src/services/chat-runs.ts:83-92 | Whatever changes a record stamps it with the time of that step. |
| RunCauses.CapturedExactlyWhen | src/routes/chat.ts:1525-1532 | A reply is captured exactly when the completion that ended the run captured it. |
| RunCauses.FinalizedExactlyWhen | src/routes/chat.ts:1533-1546 | A history is finalized exactly when nobody watched the run complete and the capture did not fail. |
| RunCauses.SweepExactlyWhen | src/services/chat-runs.ts:94-104 | A sweep takes every terminal record that is too old, and within the cap nothing else. |
| RunCauses.OldestGoFirst | src/services/chat-runs.ts:105-115 | Beyond the cap the longest untouched terminal record goes first, the earlier one among equals, and no more than needed. |
| RunCauses.ForgottenExactlyWhen | src/services/chat-runs.ts:94-117 | Records are forgotten by the sweeps of creation, resume and cancellation and in no other way. |
| DurableRow.VerdictStandsExactlyWhen | src/services/chat-streams/sqliteResumableStore.ts:614-652 | In a row that exists the route's one verdict stands for good, whatever settles the stream before or after, exactly when it may be recorded at its turn or the row says the same. |
| DurableRow.OpenStreamTakesVerdict | src/services/chat-streams/sqliteResumableStore.ts:545-553 | While the stream is open every verdict is taken and kept. |
| DurableRow.VerdictBeforeTheRowIsLost | src/services/chat-streams/sqliteResumableStore.ts:634-635 | A verdict about a stream nobody has acquired is not recorded. |
| DurableRow.LateCompletionIsRefused | src/services/chat-streams/sqliteResumableStore.ts:618-620 | A completion after an erroneous end of the stream leaves the row failed. |
| DurableRow.EarlyCancellationIsLost | src/services/chat-streams/sqliteResumableStore.ts:926-926 | A cancellation before the row exists leaves the default kind of the stream's end. |
| DurableRow.FirstSettlementStands | src/services/chat-streams/sqliteResumableStore.ts:535-578 | Without a verdict the first settlement that holds the lease decides status and kind for good. |
| ChatRunStore.Store.Settle | src/services/chat-runs.ts:83-92 | Wins exactly when the record is running, and only then changes anything. |
| ChatRunStore.Store.Create | src/services/chat-runs.ts:121-172 | Sweeps, then adds a running record, or a cancelled one during shutdown. |
| ChatRunStore.Store.Ring | src/services/chat-runs.ts:160-171 | The wall clock marks a running run as timed out and ends nothing. |
| ChatRunStore.Store.MarkDetached | src/services/chat-runs.ts:184-190 | Marks a running, attached run and nothing else. |
| ChatRunStore.Store.Attach | src/services/chat-runs.ts:193-199 | Clears the mark of a detached run whatever its status. |
| ChatRunStore.Store.AbortAll | src/services/chat-runs.ts:214-228 | Refuses new runs from now on, resets every running record and counts them. |
| ChatRunStore.Store.Sweep | src/services/chat-runs.ts:94-117 | Removes every expired terminal record, then the terminal ones beyond the cap, oldest first and in order of insertion among equals, and counts them. |
| ChatRoutes.Routes.SettleRun | src/routes/chat.ts:887-900 | Ends a running run with the effective status and writes its verdict; a loser changes nothing. |
| ChatRoutes.Routes.SettleFromUiOutcome | src/routes/chat.ts:1008-1035 | Settles with the status that outcome and finish reason call for. |
| ChatRoutes.Routes.OnEnd | src/routes/chat.ts:1506-1546 | Takes exactly the step of an ended stream; detachment is read before settling, and a failing reply capture prevents finalization. |
| ChatRoutes.Routes.OnAbort | src/routes/chat.ts:1299-1320 | The abort handler is the same transition as a cancellation through the settlement function. |
| ChatRoutes.Routes.OnError | src/routes/chat.ts:1562-1574 | Fails the run, except for a cancellation after the client left. |
| ChatRoutes.Routes.Cancel | src/routes/chat.ts:1913-1972 | Settle, abort and verdict together are one transition; reports a cancellation exactly when a running, not timed-out run ended. |
| ChatRoutes.Routes.OnDisconnect | src/routes/chat.ts:1665-1674 | A dropped connection detaches and never ends the run. |
| ChatRoutes.Routes.OnResume | src/routes/chat.ts:1714-1719 | Attaches, then sweeps. |
| IdempotentCreate.LeaderIsAlone | src/routes/conversations.ts:180-196 | A leader about to insert is the only unsettled creation of its key, and no live row carries the key. |
| IdempotentCreate.InsertingKeeps | src/db/index.ts:318-323 | A new row keeps the invariant when no live row and no creation in progress minds its key. |
| IdempotentCreate.StepKeeps | src/routes/conversations.ts:197-235 | Every step, including failures, deletes and restarts, keeps table, flights, remembered keys and answers consistent. |
| IdempotentCreate.EveryRunIsValid | src/routes/conversations.ts:197-235 | The invariant holds after every prefix of every sequence of steps. |
| IdempotentCreate.KeysNameOneRow | src/routes/conversations.ts:40-46 | Over every run the unique index never rejects, live rows have distinct keys, and answers for a key that name live rows name the same one. |
| IdempotentCreate.WithoutDeletesAnswersAgree | src/routes/conversations.ts:40-46 | Without deletes all row answers for a key name one row, and no answer reports a row as gone. |
| CreateFlights.AnsweredFlightIsRetired | src/routes/conversations.ts:227-235 | Whoever is answered gets the outcome of the creation waited for, and no flight of that creation is left. |
| CreateFlights.EveryRunIsAttended | src/routes/conversations.ts:224-235 | At every point of every run somebody waits for every flight. |
| CreateFlights.RetryStartsAfresh | src/routes/conversations.ts:192-200 | Once everybody was answered, with a row or a failure, the next request under the key starts a creation of its own; while one is unsettled it joins that one. |
| CreateFlights.RememberedForTenMinutes | src/routes/conversations.ts:201-204 | A new flight looks the remembered row up for ten minutes and searches the column otherwise. |
| CreateFlights.CommittedRowIsRemembered | src/routes/conversations.ts:62-67 | A committed row is remembered under its key; expired keys are forgotten only when more than two hundred are held. |
| CreateFlights.GoneRowIsForgotten | src/routes/conversations.ts:203-207 | A remembered row that is gone is forgotten before the column is searched. |
| CreateFlights.ReplayedIfStillThere | src/routes/conversations.ts:201-207 | A remembered row is replayed exactly if it is there when it is looked up. |
| CreateFlights.MissingIfGone | src/routes/conversations.ts:218-224 | A new row is answered exactly if it is there when it is read back, and reported missing otherwise. |
| CreateFlights.AfterRestartTheColumnDecides | src/routes/conversations.ts:209-213 | A restart forgets all maps and keeps the table; the next request under any key searches the column. |
| CreateFlights.StepsBringCloser | src/routes/conversations.ts:199-224 | Each of its own steps brings a creation closer to its outcome, within eight. |
| CreateFlights.NeverStuck | src/routes/conversations.ts:199-235 | A creation without an outcome can always go on without failing, and one with an outcome can answer all who wait. |
| CreateFlights.OnlyStorageFails | src/routes/conversations.ts:193-196 | Over every run without a storage failure no request is answered with a failure. |
| CreateFlights.OutcomeExactlyWhen | src/routes/conversations.ts:199-224 | Without deletes and failures a creation comes to a replay of the row that carried its key when it started, and to the one row it inserted, as new, if none did. |
| CreateRoute.Route.Arrive | src/routes/conversations.ts:197-226 | Up to the first await a request joins the flight of its key or starts and registers one. |
| CreateRoute.Route.ContinueAfterGet | src/routes/conversations.ts:203-207 | Replays the remembered row if it still exists, else forgets the key and goes on to search the column. |
| CreateRoute.Route.ContinueAfterFind | src/routes/conversations.ts:209-215 | Replays the row that carries the key, or goes on to insert. |
| CreateRoute.Route.Insert | src/services/storage/index.ts:133-172 | The insert with its unique index; a clash would be counted and fail the creation. |
| CreateRoute.Route.ContinueAfterInsert | src/routes/conversations.ts:215-218 | Prunes the remembered keys and remembers the new one. |
| CreateRoute.Route.Resume | src/routes/conversations.ts:227-235 | Answers one request and retires the flight only if it is still the current one. |
| CreateRoute.Route.PruneCreateKeys | src/routes/conversations.ts:62-67 | Removes exactly the expired keys, and only when more than 200 are held. |
| OverflowGate.WithOverflowRecovery | src/routes/direct-overflow-gate.ts:168-269 | The generator's effects, in order, are exactly the run read off the two streams, and so is its ending. |
| OverflowGate.OnPart | src/routes/direct-overflow-gate.ts:255-267 | Keeps: emitted parts and held parts together are the consumed prefix of the current attempt. |
| OverflowGate.OnError | src/routes/direct-overflow-gate.ts:196-253 | Retries exactly when policy agrees, nothing was shown, it is the first attempt and recovery works. |
| OverflowGate.OutputIsOneAttempt | src/routes/direct-overflow-gate.ts:162-167 | The client receives exactly one attempt, cut just after its first error part; the other leaves no part behind. |
| OverflowGate.ControlIsExact | src/routes/direct-overflow-gate.ts:177-251 | The starts, decisions, discards, recoveries and published errors of every run, in order. |
| OverflowGate.AtMostTwoAttempts | src/routes/direct-overflow-gate.ts:52-52 | A second attempt starts only after a successful recovery, and a third never. |
| OverflowGate.AtMostOneRecovery | src/routes/direct-overflow-gate.ts:219-231 | Recovery runs at most once, right after attempt 1 was neutralised. |
| OverflowGate.FinalErrorOnce | src/routes/direct-overflow-gate.ts:139-151 | The final error is published once, for the winner, exactly when the winner fails. |
| OverflowGate.ErrorsEndTheOutput | src/routes/direct-overflow-gate.ts:209-217 | An error part in the output is its last part. |
| OverflowGate.KeptExactly | src/routes/direct-overflow-gate.ts:184-217 | What is kept of an attempt, by its parts alone: up to its first error, all of it, or nothing of a stream that breaks before it showed anything. |
| OverflowGate.FirstAttemptPasses | src/routes/direct-overflow-gate.ts:184-192 | A first attempt without an error is passed on whole and nothing else happens. |
| OverflowGate.FailureIsPassedOn | src/routes/direct-overflow-gate.ts:206-217 | An error that is not recovered from ends the stream just after it. |
| OverflowGate.FailureIsPublished | src/routes/direct-overflow-gate.ts:230-245 | Such an error is the one that is published, after a failed recovery or without any. |
| OverflowGate.SecondAttemptReplacesFirst | src/routes/direct-overflow-gate.ts:247-252 | After a recovery the client receives the second attempt from its first part, up to its own error if it has one. |
| OverflowGate.ReplacedErrorIsHidden | src/routes/direct-overflow-gate.ts:219-252 | After a recovery the first error is never published and the second attempt's own error is. |
| OverflowGate.ErrorPrecedesItsPart | src/routes/direct-overflow-gate.ts:210-216 | The final error is published before its part and the markers held back are emitted, and after everything the client could see. |
| PruneMessages.SurvivorByPosition | src/lib/prune-messages.ts:233-248 | The survivor of a call id is its last output, or failing any output its last approval that no user turn follows. |
| PruneMessages.PruneKeepsSurvivors | src/lib/prune-messages.ts:286-330 | What is left of every call id is its survivor with recovered arguments, spoken by the same role, or nothing. |
| PruneMessages.PruneKeepsContent | src/lib/prune-messages.ts:310-354 | All other meaningful parts survive, in order and with their role; merging moves message boundaries only. |
| PruneMessages.PruneSettles | src/lib/prune-messages.ts:227-260 | The result is in normal form: no duplicate call, only settled parts, no overtaken approval, no empty turn, no adjacent text-only user turns. |
| PruneMessages.UnchangedExactlyWhenSettled | src/lib/prune-messages.ts:229-231 | A history passes through unchanged exactly when it is in normal form. |
| PruneMessages.PruneIsIdempotent | src/lib/model-messages.ts:19-19 | Pruning a second time changes nothing. |
| PruneMessages.SettledCallsAreReplayable | src/lib/prune-messages.ts:173-176 | In normal form every call that reaches the provider has a plain object as arguments. |
| PruneMessages.RecoveryKeepsLifecycle | src/lib/prune-messages.ts:150-156 | Writing recovered arguments back changes no part's lifecycle. |
| PruneMessages.CollectOccurrences | src/lib/prune-messages.ts:268-282 | Pass 1 lists all occurrences of every id in reading order, under ids in order of first appearance. |
| PruneMessages.DecideSurvivors | src/lib/prune-messages.ts:284-308 | Pass 2 keeps the survivors and reports removed ids and preserved approvals, in that order. |
| PruneMessages.RepairMessages | src/lib/prune-messages.ts:312-330 | Pass 3 applies the keep set and promotes recovered arguments. |
| PruneMessages.DropEmptyTurns | src/lib/prune-messages.ts:335-340 | Pass 4 removes and counts the assistant turns without meaningful parts. |
| PruneMessages.MergeTextRuns | src/lib/prune-messages.ts:342-354 | Pass 5 merges runs of text-only user messages. |
| PruneMessages.PruneStaleMessages | src/lib/prune-messages.ts:261-357 | The five passes compute the declarative rule, and the statistics are true of the result, ids in order of first appearance. |
| PruneRules.LifecycleExactlyWhen | src/lib/prune-messages.ts:180-199 | Which parts count as results and which as decisions, by output, state, approval and arguments alone. |
| PruneRules.WhatIsLeft | src/lib/prune-messages.ts:233-257 | Of every call id exactly its last result that can be shown is sent; without any, its last decision unless a user turn follows; otherwise nothing. |
| PruneRules.KeptExactlyWhen | src/lib/prune-messages.ts:286-308 | Which position of a call id is kept, by the stored fields of the whole history alone. |
| PruneRules.HealthyIsUntouched | src/lib/prune-messages.ts:227-260 | Every history is sent healthy, and exactly a healthy history is sent as it is: one result or open decision per id with object arguments, no empty assistant turn, no touching text-only user turns. |
| PruneRules.TurnsAreStored | src/lib/prune-messages.ts:342-354 | Every turn that is sent has id and role of a stored one. |
| PruneRules.SelectsExactlyWhen | src/lib/prune-messages.ts:29-37 | Which parts the results about order and content select. |
| PruneRules.ReportIsInReadingOrder | src/lib/prune-messages.ts:273-282 | Ids are listed at their first appearance, once each, and later parts only add ids behind. |
| PruneRules.VerdictsAreInOrder | src/lib/prune-messages.ts:290-308 | Removed ids and preserved approvals are reported in that order, the removed ones being those without survivor. |
| PruneRules.EmptiedTurnsAreReported | src/lib/prune-messages.ts:332-340 | The reported number of dropped turns is that of the assistant turns that held nothing but step markers and calls that are not sent. |
| LogRing.StoringRefines | src/lib/logger.ts:799-811 | Overwriting the slot at the head keeps the ring's slots equal to the newest entries of the log, through wrap-around. |
| LogRing.ReaderGetsTheRest | src/lib/logger.ts:953-966 | The walk over the slots yields exactly the retained suffix after the given number, oldest first. |
| LogRing.DrainingFollows | src/routes/logs.ts:201-206 | A drain closes a reader's gap without loss or repetition while nothing unsent was overwritten. |
| LogRing.BacklogIsFollowed | src/routes/logs.ts:207-208 | The first drain sends exactly the retained backlog. |
| LogRing.DueExactlyWhen | src/lib/logger.ts:953-966 | Due to a reader are exactly the retained entries with a number above the one it knows. |
| Throttle.NeverLifts | src/lib/logger.ts:741-748 | No admitted offer leaves a full bucket, so the end of throttling is never announced. |
| Throttle.AnnouncedOnceExactlyWhen | src/lib/logger.ts:757-765 | A scope announces throttling exactly once if it ever sheds an entry, and never otherwise; it counts as throttled from then on. |
| Throttle.LevelIsLeastSlack | src/lib/logger.ts:739-745 | The bucket's level is always within bounds and equals the least room left by any window ending now. |
| Throttle.BudgetHolds | src/lib/logger.ts:543-547 | With a clock that never goes back no window of any run admits more than 100 entries plus one per second. |
| Throttle.ShedExactlyWhenOverBudget | src/lib/logger.ts:743-766 | An entry is shed exactly when admitting it would exceed the budget of some window. |
| Throttle.AdmittedTimesKeepBudget | src/lib/logger.ts:543-547 | The budget read off admission times alone: any stretch of admissions is at most 100 plus one per second between its first and last. |
| Throttle.DroppedIsTheRest | src/lib/logger.ts:757-757 | The drop counter counts exactly the offers that were not admitted. |
| Throttle.FirstDropIsAnnounced | src/lib/logger.ts:757-765 | The announcement of throttling says that one entry was dropped. |
| Throttle.HundredAtOnce | src/lib/logger.ts:543-547 | Of entries in one millisecond exactly the first hundred pass. |
| Throttle.OneMoreAfterASecond | src/lib/logger.ts:739-745 | After such a burst the next entry passes exactly when a second is over. |
| Logger.Logger.Store | src/lib/logger.ts:799-811 | Appends to the log; retained plus overwritten entries grow by one. |
| Logger.Logger.GetRecentEntries | src/lib/logger.ts:953-966 | Returns the retained entries after a number, oldest first. |
| Logger.Logger.LastSeq | src/lib/logger.ts:972-979 | The number of the newest entry ever written, 0 when there is none. |
| Logger.Logger.Configure | src/lib/logger.ts:641-655 | Replaces levels and capacity; a resize keeps the newest entries that fit and leaves log and readers untouched. |
| Logger.Logger.Check | src/lib/logger.ts:732-767 | Lets an entry pass exactly when it is exempt or admitted; on engaging it writes one announcement first. |
| Logger.Logger.Write | src/lib/logger.ts:790-818 | What one call does to log, buckets, counters and every reader, nested writes included: one entry or nothing, growth in retained plus overwritten entries, and a reader open before that does not fail has everything since its start. |
| Logger.Logger.Notify | src/lib/logger.ts:812-818 | Every listening reader is drained once. |
| Logger.Logger.Subscribe | src/routes/logs.ts:200-208 | A new reader is sent the backlog, listens, is up to date, and is closed exactly when sending a backlog failed. |
| Logger.Logger.Heartbeat | src/routes/logs.ts:213-220 | A failing keep-alive closes a reader and changes nothing else. |
| Logger.Logger.Abort | src/routes/logs.ts:221-231 | A reader that leaves is closed and unsubscribed; it stays subscribed exactly when it was closed before. |
| Logger.FeedingKeepsConnections | src/routes/logs.ts:193-206 | No call of the logger subscribes, unsubscribes or reopens a reader; it closes exactly the listening readers that fail to take what it logged. |
| Logger.ReaderMissesNothing | src/routes/logs.ts:186-208 | A reader open before a call that does not fail during it is open after it and was sent every entry since its start exactly once, under consecutive numbers, for any capacity, wrap-around and resize. |
| Logger.BrokenReaderStaysSubscribed | src/routes/logs.ts:221-224 | A send that breaks, followed by the client's abort, leaves a reader closed and subscribed. |
| Logger.LogStaysWithinBudget | src/lib/logger.ts:543-547 | Under a rising clock any stretch of a governed scope's entries in the log is at most 100 plus one per second between its first and last. |
| Logger.OffersAreAccountedFor | src/lib/logger.ts:591-595 | Every governed call of a scope is in the log or counted as dropped. |
| Logger.LevelsAreOrdered | src/lib/logger.ts:39-46 | Levels are ordered debug, info, warn, error, and a filter that captures one captures every more severe one. |
| Logger.RecordedExactlyWhen | src/lib/logger.ts:726-767 | What one call records, by level, scope and bucket: warnings, errors and the audit scope always, all else while a whole token is left, and the first time there is none a warning. |
| Crc32.Crc | scripts/gen-icon.ts:9-19 | The table-driven checksum equals the bit-serial one for every byte string. |
| Crc32.MakeTable | scripts/gen-icon.ts:10-15 | Entry n of the table is n after eight clocks of the register. |
| Crc32.LookupIsEightClocks | scripts/gen-icon.ts:17-17 | One lookup and one shift equal feeding eight message bits. |
| Crc32.BurstDetected | scripts/gen-icon.ts:16-18 | Messages that differ only inside four consecutive bytes have equal checksums exactly when they are equal. |
| Crc32.PolynomialHasTheseTerms | scripts/gen-icon.ts:13-13 | The generator polynomial has exactly the terms of section 3.4 of RFC 2083. |
| Crc32.CheckValue | scripts/gen-icon.ts:9-19 | The digits 1 to 9 have the checksum cbf43926. |
| ReduceText.ReduceResultText | src/context/reduce.ts:116-152 | The shortened text and the reported omission are those of the declarative form. |
| ReduceText.WordingIsProper | src/context/reduce.ts:75-76 | The notice's wording has the lengths that the results about caps are stated for. |
| ReduceText.SolveBody | src/context/reduce.ts:133-148 | The loop finds the body of the first attempt that fits. |
| ReduceText.BoundedExactlyWhen | src/context/reduce.ts:149-151 | The result is within the cap exactly when the text was, or the cap holds the fallback notice. |
| ReduceText.TwoAttemptsSuffice | src/context/reduce.ts:129-134 | With room for the notice of a wholly omitted text the first or second attempt fits. |
| ReduceText.FitsExactlyWhen | src/context/reduce.ts:133-148 | Some attempt fits exactly when the cap has that room. |
| ReduceText.HeadNoticeTail | src/context/reduce.ts:124-146 | Under every cap with that room the result is a prefix, an exact notice and a suffix that do not overlap, within the cap. |
| ReduceText.CapIsUsed | src/context/reduce.ts:129-147 | With that room at most eight characters of the cap stay unused. |
| ReduceText.LastResortKeepsHead | src/context/reduce.ts:149-151 | Without that room the result is the head that fits before the notice without a count. |
| Decimal.RenderHasValue | src/context/reduce.ts:125-125 | The digits of a rendered count stand for the count. |
| ReduceText.RemovedIsExactExactlyWhen | src/context/reduce.ts:149-151 | The reported removal is exact unless the fallback keeps a head. |
| ReduceText.TinyCapIsExceeded | src/context/reduce.ts:149-151 | A cap of five characters yields 173. |
| ReduceText.LastResortOverReports | src/context/reduce.ts:149-151 | 100,000 characters under a cap of 174 keep one and are reported as wholly removed. |
| ReduceText.TraceJustOverTheCapGrows | src/context/reduce.ts:160-166 | A trace one character over its cap grows by 112. |
| ReduceText.ReductionIsIdempotent | src/context/reduce.ts:116-152 | Shortening a shortened text changes nothing, under any cap. |
| ReduceText.ReasoningShrinksExactlyWhen | src/context/reduce.ts:160-166 | A trace gets shorter exactly when what it loses outweighs its notice, and longer exactly when it is cut and the notice weighs more. |
| ReduceMessages.ReduceToolResults | src/context/reduce.ts:181-294 | The loops compute the declarative reduction and its report. |
| ReduceMessages.ReductionKeepsSkeleton | src/context/reduce.ts:168-180 | Tool parts with type, id, state and input, all texts, and all user turns survive in order. |
| ReduceMessages.ResultsAreBounded | src/context/reduce.ts:181-294 | Every text result that is sent is within the cap, failed calls excepted, and every error text is within the cap or is the notice that replaces it. |
| ReduceMessages.LongOutputIsSentExactlyWhen | src/context/reduce.ts:96-99 | A text output over the cap is sent exactly for a failed call whose error text is within it. |
| ReduceMessages.ErrorNoticeLength | src/context/reduce.ts:296-298 | That notice is 98 characters and the digits of the count. |
| ReduceMessages.FailedCallSendsItsOutput | src/context/reduce.ts:96-99 | A failed call with an empty error text sends any output. |
| ReduceMessages.ReasoningIsAccountedFor | src/context/reduce.ts:221-242 | Reasoning before minus reasoning after is the reported removal, as a signed number. |
| ReduceRules.PartIsSentExactlyWhen | src/context/reduce.ts:213-257 | Whether and how each part is sent: a call changes exactly when it is over the cap, reasoning is dropped exactly when it is old and shortened exactly when that changes its length. |
| ReduceRules.TurnIsDroppedExactlyWhen | src/context/reduce.ts:259-269 | A turn disappears exactly when it is not the user's and held nothing but old reasoning. |
| ReduceRules.RecentReasoningIsSent | src/context/reduce.ts:204-227 | Sent is the reasoning of the last messages by the policy's number and no other, in order, each trace shortened at most. |
| ReduceRules.HistoryIsReported | src/context/reduce.ts:219-257 | The report counts every oversized call, the failed ones among them, their characters, and every trace that was dropped or changed. |
| Measure.MeasureMessages | src/context/measure.ts:226-246 | The loops compute the total and the per-category characters of a history. |
| Measure.CategoriesCoverHistory | src/context/measure.ts:118-125 | No character is attributed twice or not at all; only the per-message overhead is unattributed. |
| Measure.PruneNeverGrows | src/context/measure.ts:147-157 | Pruning never raises the measured characters. |
| Measure.BandIsOrdered | src/context/measure.ts:265-279 | Low, point and high estimates are in order. |
| Measure.BandIsMonotone | src/context/measure.ts:69-72 | More characters never estimate to fewer tokens. |
| SizeRules.SizeIsLength | src/context/measure.ts:79-97 | The size of a value is the length of the text it is counted as, punctuation included. |
| SizeRules.PartBelongsExactlyWhen | src/context/measure.ts:126-160 | Which kinds of parts count for which category. |
| SizeRules.PartCountsExactlyWhen | src/context/measure.ts:126-160 | What each kind of part counts: texts their length, unfinished calls arguments and id, finished ones their output. |
| SizeRules.BandExactlyWhen | src/context/measure.ts:69-72 | Low, point and high are the least token numbers at five, three and two and a half characters each. |
| Budget.ResolveContextLimit | src/context/limits.ts:309-434 | Which figure wins among configured, stored, observed and stand-in, under which source, and exactly which losing one is recorded when. |
| Budget.CheckedExactlyWhen | src/context/limits.ts:149-180 | A supplied limit is taken exactly when it is a positive whole number, and never rounded. |
| Budget.WindowIsNeverOverbooked | src/context/limits.ts:487-491 | Usable input and generation cap together fit every positive ceiling, and the cap is at least one. |
| SizeRules.WindowIsDivided | src/context/budget.ts:78-119 | A window is divided without rest into reservation, a quarter as margin, and usable input, and the answer may take what is wanted or all that input leaves. |
| SizeRules.UnknownWindowIsNotDivided | src/context/budget.ts:85-103 | Without a positive ceiling there is no usable figure and no margin. |
| Budget.AcceptedExactlyWhen | src/context/budget.ts:194-251 | A request is sent exactly when its point estimate fits, or its low end does and a remedy was withheld. |
| Budget.HighEndDoesNotDecide | src/context/budget.ts:189-195 | A request whose high estimate is over the budget is sent. |
| Budget.NegativeHeadroomExactlyWhen | src/context/budget.ts:224-232 | A negative headroom means a withheld remedy and a point estimate over the budget, and nothing else does. |
| SizeRules.VerdictExactlyWhen | src/context/budget.ts:149-252 | Every verdict with its figures: headroom, excess, planning ceiling, and whether remedies were exhausted. |
| Budget.AcceptedRequestFitsWindow | src/routes/chat.ts:1121-1121 | An accepted request with room to spare asks for no more than the model's window. |
| Budget.RepruningKeepsTheVerdict | src/context/assemble.ts:342-386 | Pruning again before conversion never turns an accepted request into one that is not. |
| ObservedLimits.JoinIsInjective | src/context/observed-limits.ts:70-78 | Length-prefixed parts joined by a bar can be told apart, whatever they contain. |
| ObservedLimits.KeysCollideOnlyWhenEqual | src/context/observed-limits.ts:75-78 | Two keys share an entry exactly when their four parts are equal, absent counting as empty. |
| ObservedLimits.ReinsertKeepsNewest | src/context/observed-limits.ts:96-98 | Deleting and re-adding a key keeps entries in the order of their last writes. |
| ObservedLimits.EvictionKeepsRefinement | src/context/observed-limits.ts:99-103 | Evicting the first entry keeps the cache a refinement of its write log. |
| ObservedLimits.ReadAgrees | src/context/observed-limits.ts:114-116 | A key is stored exactly while fewer than 256 other keys were written after it, with its last value. |
| ObservedLimits.LastWriteExactlyWhen | src/context/observed-limits.ts:96-98 | The value that a read returns was written by the last write under its key. |
| ObservedLimits.NewerExactlyWhen | src/context/observed-limits.ts:99-103 | Newer keys are those written behind every write of a key. |
| ObservedLimits.Observations.ObserveContextWindow | src/context/observed-limits.ts:89-104 | A valid value enters the write log, an invalid one changes nothing, and the cache still refines the log. |
| ObservedLimits.Observations.ReadObservedContextWindow | src/context/observed-limits.ts:114-116 | Returns the last value written for exactly this key, unless 256 other keys followed. |
| EventFraming.FramesRejoin | src/routes/opencode.ts:559-564 | Blocks and residual rejoined with blank lines give the text back. |
| EventFraming.FramesCutEverywhere | src/routes/opencode.ts:562-564 | No separator is left in the residual and none begins inside a block. |
| EventFraming.FramesAreUnique | src/routes/opencode.ts:562-564 | Any cut that leaves no separator behind is the one that is made. |
| EventFraming.ChunkingIsIrrelevant | src/routes/opencode.ts:559-583 | Any division of a text into chunks ends in the same blocks and residual. |
| EventFraming.LogIsBounded | src/routes/opencode.ts:573-581 | A stream causes at most 22 log lines, and exactly how many. |
| EventFraming.LogIsExact | src/routes/opencode.ts:569-581 | The first line tells the first event, the next twenty their events with numbers, and the last that the twenty-first is not told. |
| EventFraming.Observer.ParseEvents | src/routes/opencode.ts:559-583 | The observer's whole state is a function of the text received so far. |
| TerminalStream.PartIdsAreDistinct | src/lib/terminal-stream.ts:67-80 | Part ids with different sequence numbers differ, whatever the call ids contain. |
| TerminalStream.NoPartIdRepeats | src/lib/terminal-stream.ts:74-77 | No two parts written by a batcher share an id. |
| TerminalStream.NothingIsLostBelowTheCap | src/lib/terminal-stream.ts:82-100 | While a call has sent fewer parts than its cap, what was sent and what is pending is all that was pushed. |
| TerminalStream.PushSendsExactlyWhen | src/lib/terminal-stream.ts:113-124 | A push sends exactly when 4096 characters have come together below the cap, and then all of them in one part. |
| TerminalStream.FireSendsExactlyWhen | src/lib/terminal-stream.ts:102-110 | A timer sends exactly what is pending below the cap, and leaves nothing behind. |
| TerminalStream.FlushAgrees | src/lib/terminal-stream.ts:82-100 | A flush moves pending text to the output within the part cap and loses it only at the cap. |
| TerminalStream.PushKeepsAgreement | src/lib/terminal-stream.ts:113-124 | Pushing keeps, for every open call, emitted plus pending text equal to what was pushed, or a prefix once capped, and a timer behind all pending text. |
| TerminalStream.FireKeepsAgreement | src/lib/terminal-stream.ts:102-110 | So does a timer. |
| TerminalStream.CompleteKeepsAgreement | src/lib/terminal-stream.ts:126-136 | So does a completion; its one done part follows all text that is sent for the call. |
| TerminalStream.Batcher.Push | src/lib/terminal-stream.ts:113-124 | The calls, their text and the parts written after one read of output, in every branch. |
| TerminalStream.Batcher.Flush | src/lib/terminal-stream.ts:82-100 | What is sent and what is left, by the part cap. |
| TerminalStream.Batcher.Fire | src/lib/terminal-stream.ts:102-110 | What a timer leaves and sends. |
| TerminalStream.Batcher.Complete | src/lib/terminal-stream.ts:126-136 | The leftovers, exactly one done part, and nothing remembered of the call. |

## Left out

- HTTP routing, request schemas, the AI SDK, SQLite, files, processes and the Tauri shell: what they answer is a parameter, a step or a table.
- Registry records, terminal calls and live-tail readers are values in maps and sequences that methods reassign; aliasing of the original's record objects is not captured.
- ChatRuns.Apply: a verdict write that throws is logged and not retried by the code; the model records the attempt. Settlement promises, log lines and HTTP answers are not modelled.
- ChatRuns.VerdictsMatchTheRegistry: covers the route's verdict writes only; a stream that ends without one gets a default kind from the byte store, which `DurableRow` models apart from the registry. Expiry and deletion of rows, finish reasons and error categories are left out.
- ChatRunStore.Store.Create: ids are fresh by assumption, as a random id is.
- IdempotentCreate.Apply: request bodies, workspace folders and the fields of a row other than id and key are not modelled; ids are never reused.
- CreateRoute.Route: creations are numbered where the original compares promises; a database call has a point before and one after it, which allows more interleavings than one JavaScript thread does.
- OverflowGate: cancellation of the logical stream by its consumer is not modelled; the error argument of `onFinalError` is the part's error.
- PruneMessages: part types are classes (`Kind`), `rawInput` carries the result of parsing it, and messages always have a list of parts.
- PruneMessages.PruneStaleMessages: superseded duplicates are not listed as removed, as in the code.
- Measure.ClassifyPart: the size of a part that is measured as a whole is a given number; cyclic values, instructions and tool definitions enter as a count of characters.
- Budget.ResolveContextLimit: the diagnostic records beside the result are left out; limits in `ComputeBudget` are integers.
- ReduceText.Reduced: the head's share of a body, 0.6 rounded up in the code, is any function that stays within the body.
- Throttle.Offer: token levels are whole thousandths and the clock is in whole milliseconds.
- Throttle.BudgetHolds: a statement about time windows, so it takes a clock that never goes back; the logger's own contracts hold under any clock.
- Logger.Logger.Write: one clock reading serves one call; scope thresholds are a given function, redaction has happened, and the console, file queue, rotation and counter resets are left out.
- EventFraming.Observer: decoding bytes and reading the event type out of a block are given functions.
- TerminalStream.Batcher: exit codes are left out, and firing a timer is an event that can happen any time it is armed.
- Context compaction, provider option building, log files, credentials, MCP, scheduler and browser routes: input and output around code that is not part of this model, or easy.
