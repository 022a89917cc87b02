# Control-plane verification

A Dafny model of the control plane in `src/`: the leased command queue and its worker, the token bucket and
the inference broker, the append-only ledger with archival, execution policies and their resubmission, command
line and property list quoting, embedding similarity, the arbiter, the unattended Ghost Shift and the capacity
probe.  `dafny verify dfyconfig.toml` checks all of it.

Two shapes recur.  Code that changes things step by step is a class or a loop, and its `ensures` ties the new
state to a function of the old one (`CommandStoreModel`, `CommandWorker`, `RateLimit`, `Broker`, `AttemptLog`,
`Ledger`, `SidecarFile`, `Embedding`, `Rubric`, `CandidateVerifier`, `Arbiter`, `GhostSafety`, `GhostShift`,
`CapacityProbe`).  Concurrency is a transition system over the same functions: `LegalRun` says which events may
follow each other, `Exec` gives the state after a run, an inductive invariant is kept by every step, and the
results quantify over all runs (`CommandRuns` with `CommandTheorems` and `CommandTables`, `BrokerRuns` with
`BrokerRequests`, `LedgerRuns` with `LedgerReplay` and `LedgerRecord`, `GhostRuns`).
Functions that only define what the code computes are pinned down by statements in other terms: columns of rows,
answers to later polls, events of a run, fields of the input.
History (claims made, verdicts given, requests started, events appended, graphs executed) is recorded in the
state and read by nothing but the statements about it.

## Reading the model

| file | content |
|---|---|
| `CommandRows.dfy` | the two tables and every SQL statement as a function |
| `CommandEffects.dfy` | what each statement does, column by column |
| `CommandStore.dfy` | `CommandStore`, each method proved equal to its statements |
| `CommandRuns.dfy`, `CommandTheorems.dfy` | interleavings of workers and operators, and what holds of them |
| `CommandTables.dfy` | exactly when the command and activity tables can come apart |
| `CommandTurn.dfy`, `CommandWorker.dfy` | one claim-execute-finish turn and what it comes to, the loop |
| `CommandDrain.dfy` | what an undisturbed loop drains |
| `RateLimit.dfy`, `RateLimitRefinement.dfy` | the bucket, its window bound, its eager counterpart |
| `AttemptLog.dfy`, `Broker.dfy`, `BrokerRuns.dfy` | the attempt loop, the set-up, concurrent calls |
| `BrokerRequests.dfy` | the requests calls start, the pause after a 429, and what the logs record |
| `Ledger.dfy`, `LedgerRuns.dfy`, `LedgerReplay.dfy` | tables, archives with crashes, when they replay a session |
| `LedgerRecord.dfy` | the same, said of the appends that were accepted |
| `SidecarFile.dfy` | the text of an archive's sidecar |
| `ExecutionPolicy.dfy`, `PolicyDefaults.dfy` | policies, and every field of them in terms of plan, envelope and JSON |
| `PolicyRewrite.dfy`, `Resubmission.dfy` | the graph rewrite, copies of commands |
| `ShellQuoting.dfy`, `XmlQuoting.dfy`, `Readers.dfy` | quoting and a reader for each |
| `Embedding.dfy` | cosine similarity and ranking |
| `CandidateVerifier.dfy`, `Rubric.dfy`, `Arbiter.dfy` | re-verification, scoring, the decision |
| `ArbiterReasons.dfy` | the other decisions, and the gates they name |
| `GhostSafety.dfy`, `GhostShift.dfy`, `GhostRuns.dfy` | the safety check, one shift, concurrent shifts |
| `CapacityProbe.dfy`, `CapacityBudget.dfy` | budgeted probing, and exactly when the budget holds |
| `LatencyStats.dfy` | nearest-rank percentiles |
| `Options.dfy`, `Numbers.dfy` | what the others share |

## Where the code and its documentation part

The model follows the code.

- `src/ghost/shift.ts:11-12` says a file whose shift died in `running/` is picked up by the next shift; only
  `queue/` is ever listed, so it stays there (`GhostRuns.StrandedForever`).
- `src/ghost/safety.ts:7-9` says rejected graphs go to `blocked/`; they are moved to `rejected/`.
- `src/arbiter/arbiter.ts:91-93` says skipping both commands forces `requireTests` off so that the candidate
  can still pass; nothing does that, and a skipped verification never passes (`Arbiter.SkippedIsNeverAccepted`).
- `src/arbiter/verifier.ts:98-104` wants a verification claim to match what ran; an empty command list still yields
  "passed" with nothing run (`CandidateVerifier.PassedIsTrustworthyExactlyWhen`).
- `src/inference/rate-limit.ts:90-92` says a penalty shrinks the capacity; it only empties the bucket, and a poll
  during the pause ends the pause early (`RateLimitRefinement.DeniedPollIsIdleExactlyWhen`).
- `src/inference/capacity-probe.ts:135` refuses to overrun the budget, and a whole budget is never overrun; a fractional
  one is when it is smaller than the samples asked for, or when a fractional ramp size fits it but the calls it takes
  do not (`CapacityBudget.BudgetHoldsExactlyWhen`).  With the default samples and ramp that leaves fractions below
  three (`CapacityBudget.DefaultsHoldExactlyWhen`).
- `src/arbiter/arbiter.ts:540-541` calls an escalation with nothing to say a bug that should not happen; it happens
  (`Arbiter.NothingConcreteHappens`) when some candidate passes every objective gate and each that does has findings
  without a review coverage, a positive least coverage to meet, and nothing else against it
  (`Arbiter.NothingConcreteExactlyWhen`).
- `src/ledger/events.ts:5` recovers state by replaying events; archives that overlap can write an event to two sidecars
  (`LedgerRecord.ReplayIsExactExactlyWhen`, `LedgerRecord.OverlapRepeats`).

## Model

| member | source | states |
|---|---|---|
| CommandStoreModel.CommandStore.Submit | src/commands/store.ts:359-426 | the verdict is logged; a submission whose id or trace is taken changes nothing else, any other appears queued, waiting for approval or denied as its verdict says, with queued or blocked activities and no lease; a dry run changes nothing |
| CommandStoreModel.CommandStore.ClaimNext | src/commands/store.ts:467-525 | the earliest requested open command within the filter, no class counting as class one, is leased to the worker with its queued and running activities, one attempt more each; or none is open and nothing changes |
| CommandStoreModel.CommandStore.ExtendLease | src/commands/store.ts:527-560 | exactly the running rows recorded for this worker get the new lease end |
| CommandStoreModel.CommandStore.FinishActivity | src/commands/store.ts:567-583 | one activity gets its final status and loses its lease, whoever reports and whatever status it had |
| CommandStoreModel.CommandStore.FinishCommand | src/commands/store.ts:585-616 | the command gets its final status and loses its lease, whoever reports and whatever status it had |
| CommandStoreModel.CommandStore.UpdateState | src/commands/store.ts:1011-1034 | status, cursor and, if given, verdict change; lease columns do not |
| CommandStoreModel.CommandStore.MarkActivities | src/commands/store.ts:1036-1041 | every activity of the command takes the status |
| CommandStoreModel.CommandStore.Cancel | src/commands/store.ts:446-465 | an open command and all its activities become canceled with the lease columns left as they were; a terminal one is untouched |
| CommandStoreModel.CommandStore.Resume | src/commands/store.ts:656-717 | only a command waiting for approval is judged again; an allow queues it and its activities, anything else leaves it waiting |
| CommandStoreModel.CommandStore.Retry | src/commands/store.ts:719-741 | only failed or canceled commands are copied, through a fresh submission |
| CommandStoreModel.CommandStore.Requeue | src/commands/store.ts:743-769 | only queued, running or waiting commands are canceled and then copied, through a fresh submission |
| CommandEffects.ApprovalQueues | src/commands/store.ts:656-717 | a submission that needs approval waits, and an allowing resume queues it with all its activities |
| CommandRuns.ClaimsHaveEnded | src/commands/store.ts:893-905 | what makes a command claimable also means that every earlier claim of it has ended |
| CommandRuns.StepEntry | src/commands/store.ts:881-952 | what any step of any caller makes of one command, every other command staying as it is |
| CommandRuns.StepInserts | src/commands/store.ts:359-426 | a command appears exactly when a step submits it and the insert is not refused, and then as its submission says |
| CommandRuns.RunKeepsInv | src/commands/store.ts:446-769 | the invariant of rows, activities, leases, cursor, attempts, verdicts and pending calls survives every interleaving |
| CommandTheorems.LeasesNeverOverlap | src/commands/store.ts:467-560 | the recorded leases of different claims of one command never cover the same instant, in any run |
| CommandTheorems.LeaseColumnsShowTheLastClaim | src/commands/store.ts:893-952 | the lease columns are those of the last claim until a finish clears them |
| CommandTheorems.StaleHeartbeatIsIdle | src/commands/store.ts:937-947 | a heartbeat from a worker that is not the owner of a running command changes nothing |
| CommandTheorems.HeartbeatIsIdleExactlyWhen | src/commands/store.ts:937-947 | no heartbeat of a worker has an effect exactly when it owns neither the running command nor a running activity of it |
| CommandTheorems.OnlyAllowedCommandsRun | src/commands/store.ts:656-717 | a command that runs or ever ran was allowed under its own id and trace, by the verdict that inserted it or by that of a resume; the verdict of a refused duplicate does not do |
| CommandTheorems.EvaluationsComeFromSubmitOrResume | src/commands/store.ts:1050-1098 | every verdict on record was given to a resume of that command or to a submission of it, one recorded as inserting to the submission that was inserted |
| CommandTheorems.StaysShut | src/commands/store.ts:446-465 | a terminal or denied command with no resume pending stays terminal or denied in every continuation and is never claimed again |
| CommandTheorems.TerminalIsFinalExactlyWhen | src/commands/store.ts:656-717 | terminal statuses are absorbing as a set exactly when no resume that read the command as waiting has yet to write |
| CommandTheorems.DeniedNeverRuns | src/commands/store.ts:1918-1922 | a command submitted with a denial is never queued, running or claimed |
| CommandTheorems.CopiesPassTheGateAfresh | src/commands/store.ts:719-769 | a retry or requeue closes the source, leaves the rest alone and gives the copy the status its own verdict earns |
| CommandTheorems.TablesAgreeInAtomicRuns | src/commands/store.ts:881-952 | while cancel and resume run undisturbed, a queued command has queued activities and no lease in every reachable state |
| CommandTheorems.RowsAgreeInEveryRun | src/commands/store.ts:367-418 | in every run the cursor names the status, a running command shares its lease with its running activities, and attempts count the claims made while open |
| CommandTheorems.ResumeRaceBreaksTables | src/commands/store.ts:690-709 | from any waiting command, a cancel between the two writes of a resume leaves it queued with every activity, of as many as it has, canceled |
| CommandTables.ComesApartExactlyWhen | src/commands/store.ts:446-717 | whatever calls are under way, some continuation queues a command without its activities queued, unleased and never claimed exactly when its row, activities and pending operator calls fail a condition that can be read off the state |
| CommandTables.OnlyWaitingCommandsComeApart | src/commands/store.ts:656-717 | with no operator call under way and the tables in agreement, that is exactly when the command waits for approval, with or without activities |
| CommandTheorems.NothingIsStranded | src/commands/store.ts:893-905 | whatever crashed, an open command can be claimed now or once its recorded lease has expired |
| CommandTurn.FirstRunnable | src/commands/worker.ts:290-292 | the first activity the claim left running, if any |
| CommandTurn.TurnReports | src/commands/worker.ts:174-264 | a turn leaves the command completed if the execution succeeded and failed otherwise or when nothing was open; the first activity open before reports the execution, the other open ones stay running under the last lease, nothing else changes |
| CommandWorker.SendHeartbeats | src/commands/worker.ts:266-284 | a turn's heartbeats extend the leases as that many lease extensions do |
| CommandWorker.RunClaimed | src/commands/worker.ts:204-263 | a claimed command without a runnable activity is failed, otherwise the heartbeats are sent, and the command and its first running activity get the outcome of the execution |
| CommandWorker.RunCommandWorkerOnce | src/commands/worker.ts:174-264 | one turn claims the earliest eligible command and reports its execution on it and on its first open activity, or there was none and nothing changed |
| CommandWorker.RunCommandWorkerLoop | src/commands/worker.ts:108-172 | the loop's log replays to its final tables, in which every command of the log has the status its turn gave it; counters and last fifty results tally with the log; it went on only within its runtime and without a reason to stop, and by the clock readings the status says why it ended |
| CommandWorker.EveryTurnReports | src/commands/worker.ts:124-154 | each entry of the log is a turn that reports its execution, between the tables before and after it |
| CommandWorker.FinalReports | src/commands/worker.ts:124-154 | a finished command is not claimed again, so its status lasts to the end of the loop |
| CommandDrain.RoundShrinks | src/commands/worker.ts:174-264 | a turn takes exactly one command, an earliest requested one, out of the eligible set |
| CommandDrain.LoopDrains | src/commands/worker.ts:124-154 | undisturbed, the loop claims precisely the eligible commands, each once and in request order, and leaves none |
| RateLimit.TokenBucketLimiter.Configure | src/inference/rate-limit.ts:42-51 | a configured bucket starts full, with the rate as capacity unless one is given |
| RateLimit.TokenBucketLimiter.Acquire | src/inference/rate-limit.ts:53-88 | verdict and new state of one bucket; the others are untouched and an unknown model is refused |
| RateLimit.TokenBucketLimiter.Penalize | src/inference/rate-limit.ts:93-99 | one bucket is emptied and grants nothing before the pause is over; unknown models are ignored |
| RateLimit.PenalizedIsPaused | src/inference/rate-limit.ts:93-99 | until the announced pause is over a penalized bucket grants nothing and shows level zero; from then on it fills from empty at its rate up to its capacity |
| RateLimit.FreshIsFull | src/inference/rate-limit.ts:42-51 | a fresh bucket has the configured rate, the capacity or else the rate as its size, and is full for every first poll |
| RateLimit.WindowBound | src/inference/rate-limit.ts:53-99 | polls and penalties in any order grant at most capacity plus rate times length in any window |
| RateLimitRefinement.LazyRefinesEager | src/inference/rate-limit.ts:63-88 | without penalties the lazy bucket gives the verdicts and leaves the levels of one refilled every millisecond, on every sequence of polls |
| RateLimitRefinement.DeniedPollIsIdleExactlyWhen | src/inference/rate-limit.ts:63-88 | a denied poll leaves all later levels as they would have been exactly when it does not cut a penalty's pause short |
| RateLimitRefinement.RetryAfterIsExact | src/inference/rate-limit.ts:80-88 | the suggested wait is the first millisecond at which a lone retry succeeds, exactly when the capacity holds a token; it is forever exactly for a bucket that does not fill |
| AttemptLog.AttemptsBoundedByPosition | src/inference/broker.ts:264-268 | an orderly log is never longer than the positions it has passed |
| AttemptLog.GuardNeverFires | src/inference/broker.ts:268-268 | the attempt-count guard is false at every attempt |
| AttemptLog.NextAttempt | src/inference/backoff.ts:56-60 | the same model is tried again exactly after a 429 or a status from 500 to 599 with attempts left, otherwise the next model from its first attempt |
| AttemptLog.FailureIsFinal | src/inference/broker.ts:263-381 | a failed call has tried its last model and stopped there for a status that is not tried again or for want of attempts |
| AttemptLog.RunAttempts | src/inference/broker.ts:263-381 | records are numbered without gaps in candidate order, each candidate is left only on exhaustion or a final status, and the call succeeds exactly when its last record does |
| Broker.Candidates | src/inference/broker.ts:215-243 | the candidates are exactly the usable models of the class that have the asked key, if one is asked for |
| Broker.CandidatesInPolicyOrder | src/inference/broker.ts:215-243 | they are tried in the order of the class's policy |
| Broker.CandidatesAreServed | src/inference/model-registry.ts:135-145 | a call may try exactly the models of its class whose provider is switched on and has its credential or the fallback of it, if it needs one, and only the model it names, if it names one |
| Broker.InferenceBroker.constructor | src/inference/broker.ts:143-189 | every served model of every class has a full bucket of its provider's rate and of its burst, or the rate if there is none, and there are no other buckets |
| BrokerRuns.HistoryStaysWithinRate | src/inference/broker.ts:289-305 | the requests recorded for a model key in a window stay within its bucket's size plus its rate over the window |
| BrokerRequests.RequestsAreStarted | src/inference/broker.ts:289-305 | that record is exactly when calls went on to request the model |
| BrokerRequests.RequestsStayWithinRate | src/inference/broker.ts:289-305 | however calls and 429s interleave, the requests that calls start for a model key in a window stay within the provider's burst plus its rate over the window, and keys of no served model start none |
| BrokerRequests.FirstPollInPauseStartsNothing | src/inference/broker.ts:342-360 | after a 429 the next poll of its model key, by whichever call, starts no request within the pause announced, a second if none is |
| BrokerRequests.OnlyPollsAndRefusalsTouch | src/inference/broker.ts:289-360 | nothing but polls and 429s of a key touches its bucket |
| BrokerRequests.LogsRecordTheAnswers | src/inference/broker.ts:307-340 | in every interleaving a call's log has one record for each answer it got, in order, with its status, also when handling the answer threw |
| BrokerRuns.SemaphoreIsExact | src/inference/broker.ts:245-389 | with one added on entry and one taken away on leaving, by return or by exception, a class's counter equals its calls between the two and never exceeds its limit |
| BrokerRuns.NoCallMissesProviderOrBucket | src/inference/model-registry.ts:202-211 | every candidate of every call has its provider's client and its bucket, in every reachable state |
| BrokerRuns.FinishedLogsMeetTheSpec | src/inference/broker.ts:263-384 | in every interleaving a finished call's log is orderly and ends as its result says, and a call that threw leaves an orderly log |
| Ledger.NextOffset | src/ledger/index.ts:203-205 | one past the greatest live offset of the session, or zero |
| Ledger.SortedSorts | src/ledger/index.ts:477-485 | the archive's ordering keeps exactly the selected rows and orders them by time, then offset |
| Ledger.LedgerStore.EnsureSession | src/ledger/index.ts:275-284 | an existing session keeps its row, a new one has the given start and title and no last event |
| Ledger.LedgerStore.AppendEvent | src/ledger/index.ts:244-272 | one event with the given session, id, time and payload and the next offset is added and returned, and the session's last-event time set; nothing when the session is missing or the id is taken |
| Ledger.LedgerStore.GetEvents | src/ledger/index.ts:290-311 | a page: events of the session from the offset on in ascending offsets, at most the limit, and one is left out only when the limit is reached and every event listed comes no later |
| Ledger.LedgerStore.CountPerSession | src/ledger/index.ts:502-508 | the map counts the selected events of every session that has any |
| Ledger.LedgerStore.SelectArchive | src/ledger/index.ts:477-535 | the sessions to delete are exactly those all of whose events are selected |
| Ledger.LedgerStore.CommitArchive | src/ledger/index.ts:622-635 | everything before the cutoff and the chosen sessions go together, or nothing goes when one of them still has an event |
| LedgerRuns.RowsAreKept | src/ledger/index.ts:471-651 | with cutoffs in the past, every row ever appended is live or in a finished sidecar |
| LedgerRecord.ArchivesLoseNothing | src/ledger/index.ts:471-651 | so is every append that was accepted, with its session, id, time and payload, through crashes and overlapping archives |
| LedgerRuns.CommitRemovesItsSidecar | src/ledger/index.ts:604-635 | a committed delete removes exactly the live events its own sidecar holds |
| LedgerRuns.LiveEventsKeepSessionAndOffsets | src/ledger/index.ts:244-272 | in every run each live event has its session row and a session's live offsets are one contiguous range |
| LedgerRuns.NextOffsetContinues | src/ledger/index.ts:203-205 | the next offset continues the live range, or starts at zero |
| LedgerRuns.LastEventColumnShowsLast | src/ledger/index.ts:244-272 | in every run a session with live events shows the time of the last of them |
| LedgerRuns.SafeAgainstAppendsExactlyWhen | src/ledger/index.ts:622-635 | every append that may come between a written sidecar and its delete survives exactly when the cutoff is not in the future, the delete will be refused, or no session is left to append to |
| LedgerRuns.SortedKeepsSessionOrder | src/ledger/index.ts:477-485 | sorting by time and offset leaves each session's events in append order |
| LedgerReplay.ExactWhenUnshared | src/ledger/index.ts:471-651 | in every run with past cutoffs the rows of committed sidecars, then the live ones, are a session's appended rows in order exactly when no two committed sidecars share one |
| LedgerRecord.ReplayIsExactExactlyWhen | src/ledger/index.ts:471-651 | so are their sessions, ids, times and payloads those of the accepted appends of the run, in order, exactly then |
| LedgerRecord.SidecarsThenLiveReplayTheSession | src/ledger/index.ts:733-750 | replay gives back the accepted appends whenever archives run one at a time |
| LedgerRecord.OverlapRepeats | src/ledger/index.ts:471-651 | a run of two overlapping archives with different past cutoffs repeats an event |
| SidecarFile.SplitUndoesJoin | src/ledger/index.ts:601-601 | splitting a file into its non-empty lines undoes joining them |
| SidecarFile.ReadArchiveFile | src/ledger/index.ts:733-750 | the first line is the header, every later line but the session markers is an event, an empty file is an error |
| SidecarFile.SidecarRoundTrip | src/ledger/index.ts:563-602 | reading what an archive wrote gives its header and exactly its events in order |
| ExecutionPolicy.BaseChecks | src/commands/execution.ts:147-173 | every plan's verification includes the artifact schema check, adapters' hints included |
| ExecutionPolicy.ExecutionIsNormal | src/commands/execution.ts:78-119 | whatever JSON is stored, the policy read back has whole, non-negative numbers and clean lists |
| ExecutionPolicy.NormalPoliciesSurvive | src/commands/execution.ts:78-119 | a normal policy survives storing and reading, whatever its context has become |
| ExecutionPolicy.ReadingTwiceIsReadingOnce | src/commands/execution.ts:78-119 | normalisation is idempotent |
| PolicyDefaults.BudgetPerVerb | src/commands/execution.ts:231-235 | ten minutes for project verbs, three for ops verbs, one for any other |
| PolicyDefaults.ModeIsAsked | src/commands/execution.ts:546-566 | the mode asked of an adapter is the word after the first `--mode`, or "read" |
| PolicyDefaults.ModePerPlan | src/commands/execution.ts:147-184 | verification is required without an action, for a project check, and for an adapter without side effects or asked to read or propose; otherwise before side effects |
| PolicyDefaults.ChecksPerPlan | src/commands/execution.ts:525-597 | the checks are the artifact schema, the trace of a checked project, and what an invoked adapter hints at as far as known, none twice |
| PolicyDefaults.BuiltFields | src/commands/execution.ts:46-231 | every field of a policy built from any envelope, in terms of envelope and plan |
| PolicyDefaults.ReadNumbers | src/commands/execution.ts:605-617 | stored numbers are rounded down and bounded below; anything else reads as one attempt, half a second, and the verb's budget |
| PolicyDefaults.ReadFields | src/commands/execution.ts:78-119 | the other fields read back as stored when of their type, and otherwise as retry on failure, no word on side effects, and what the plan says |
| PolicyDefaults.TrimTakesSpaces | src/commands/execution.ts:619-625 | trimming takes spaces from both ends and nothing else |
| PolicyDefaults.ListsAreTrimmed | src/commands/execution.ts:619-625 | of a stored list the strings are kept in order, trimmed, unless blank; all else goes |
| PolicyRewrite.TwiceIsOnceExactlyWhen | src/commands/execution.ts:131-145 | applying a policy twice is applying it once, on all graphs, exactly when its budget is whole or not positive |
| PolicyRewrite.StoredPolicyTwiceIsOnce | src/commands/worker.ts:324-325 | for every policy a worker reads from the store, twice is once |
| PolicyRewrite.TimeoutIsLeastBudget | src/commands/execution.ts:435-457 | after any sequence of policies a command line's timeout is the least of all budgets and of its floored, non-negative original if that was a number; every other field of the input is as it was |
| PolicyRewrite.OtherInputsUntouched | src/commands/execution.ts:435-444 | inputs that are no structured payload with an object for a command line come through untouched |
| PolicyRewrite.NodesUnderAll | src/commands/execution.ts:423-476 | ids, dependencies and existing retry policies stay; a missing one has the attempts, backoff and retry flag of the first policy; a verifier becomes required exactly when some policy asks, with its own checks or else those of the first that asks |
| PolicyRewrite.BudgetsUnderAll | src/commands/execution.ts:131-145 | the graph's runtime, attempt and backoff budgets are those of the last policy, its other budgets stay |
| PolicyRewrite.TimeoutsIgnoreOrder | src/commands/execution.ts:435-457 | permuting the policies changes no input |
| Resubmission.CopyIsAcceptedExactlyWhen | schemas/command-envelope.schema.json:114-138 | the schema accepts a copy's envelope exactly when its source has at most ten attempts |
| Resubmission.AcceptedIsGranted | src/commands/execution.ts:186-235 | an accepted envelope gets the retries, backoff and whole-second budget it asked for or their defaults, and verification if asked or planned |
| Resubmission.SubmittedPolicyIsBuilt | src/commands/execution.ts:46-119 | storing and reading a built policy floors its budget and loses nothing else |
| Resubmission.BudgetBounds | src/commands/execution.ts:215-235 | every budget lies between a second and the verb's default and is within a second of its whole-second form |
| Resubmission.CopyKeeps | src/commands/store.ts:2230-2268 | a copy keeps attempts, backoff, side-effect permission and seconds, and its budget is the source's rounded up to seconds |
| Resubmission.BudgetIsKeptExactlyWhen | src/commands/store.ts:2254-2254 | the runtime budget is kept exactly when it was whole seconds |
| Resubmission.VerificationIsKeptExactlyWhen | src/commands/store.ts:2257-2257 | a requirement to verify is never lost, and none is gained exactly when the new plan asks for none |
| Resubmission.CopyUnderTheSamePlan | src/commands/store.ts:2230-2268 | the whole policy of a copy under an unchanged plan |
| Resubmission.AcceptedCopyKeepsEverything | src/commands/store.ts:2230-2268 | a copy of an accepted submission keeps its whole policy, a requirement to verify being spelled out |
| Resubmission.SecondCopyEqualsTheFirst | src/commands/store.ts:2230-2268 | for any budget a copy of a copy has the copy's policy |
| Resubmission.SecondCopyEqualsTheFirstExactlyWhen | src/commands/execution.ts:147-184 | under a changed plan it still does exactly unless that plan first introduced verification before side effects |
| ShellQuoting.TokenExtends | src/approvals/queue.ts:309-312 | wherever a token stands, the reader adds exactly its value to the current word |
| ShellQuoting.TokenIsOneWord | src/commands/store.ts:2226-2228 | both forms of a token read back as one word equal to the input, for every string, and the approval queue leaves a plain word as it is |
| ShellQuoting.CommandLineRoundTrip | src/approvals/queue.ts:309-312 | a line of tokens reads back as the values it was built from |
| XmlQuoting.EscapeIsOneMap | src/commands/launchd.ts:170-177 | the five successive replacements are one map over the characters |
| XmlQuoting.EscapeRoundTrip | src/commands/launchd.ts:170-177 | decoding the predefined entities gives the text back, with no bare markup character or quote on the way |
| Embedding.CauchySchwarz | src/inference/embedding.ts:25-33 | the accumulators satisfy dot squared at most the product of the squared lengths, for any equal-length vectors |
| Embedding.CosineIsUnique | src/inference/embedding.ts:34-35 | the cosine is determined by its defining equation |
| Embedding.CosineInRange | src/inference/embedding.ts:18-36 | it lies between minus one and one |
| Embedding.MultiplesAreAlike | src/inference/embedding.ts:18-36 | a vector and a positive multiple of it have similarity one |
| Embedding.CosineSimilarity | src/inference/embedding.ts:18-36 | an error exactly on unequal lengths, zero without magnitude, otherwise the cosine |
| Embedding.RankByCosine | src/inference/embedding.ts:44-51 | every position once with its own cosine, scores not increasing, ties in input order, an error exactly when some length differs |
| Embedding.RankingIsUnique | src/inference/embedding.ts:48-50 | given scores have one such ranking |
| CandidateVerifier.VerifyCandidate | src/arbiter/verifier.ts:43-120 | each phase and exit code, said of the commands and their exits alone |
| CandidateVerifier.ExplanationIsUnique | src/arbiter/verifier.ts:43-120 | that description determines the result |
| CandidateVerifier.PassedMeansBothExitedZero | src/arbiter/verifier.ts:60-105 | with runnable commands "passed" means both ran and exited with zero, and the other way round |
| CandidateVerifier.PassedIsTrustworthyExactlyWhen | src/arbiter/verifier.ts:60-105 | "passed" implies that in every world exactly when both commands run something or it cannot be reported |
| Rubric.ScoreCandidate | src/arbiter/rubric-scorer.ts:77-124 | the sums, the score, the coverage and the unsupported criteria of a rubric |
| Rubric.ScoreBySignal | src/arbiter/rubric-scorer.ts:134-224 | a criterion about passing scores by the verification phase, one about false greens or contracts by the reviewers' counts, one about anti-examples zero when one matched; the first that applies decides and any other is not scored |
| Rubric.IncludesExactlyWhen | src/arbiter/rubric-scorer.ts:139-146 | what a criterion is about is what its text contains |
| Rubric.OneCriterionCounts | src/arbiter/rubric-scorer.ts:77-124 | a scored criterion adds its score times its weight, one by default, and its weight; any other is reported as unsupported |
| Rubric.ScoreMeaning | src/arbiter/rubric-scorer.ts:92-112 | with non-negative weights score and coverage are fractions that account for the weighted sum |
| Rubric.FloorMeaning | src/arbiter/rubric-scorer.ts:92-112 | a score above the floor means a weighted sum of at least floor times coverage times total weight |
| Rubric.PerfectExactlyWhen | src/arbiter/rubric-scorer.ts:92-112 | the weighted sum is the scored weight exactly when every scored criterion that weighs anything is perfect |
| Arbiter.CollectRejectionReasons | src/arbiter/arbiter.ts:479-510 | one line per assessment that failed something, listing its failed gates in order |
| Arbiter.CollectEscalationReasons | src/arbiter/arbiter.ts:515-544 | one line per assessment with a concrete uncertainty |
| Arbiter.Decide | src/arbiter/arbiter.ts:229-363 | the decision from the assessments, with the ranking a human is offered |
| Arbiter.AssessmentIsOwn | src/arbiter/arbiter.ts:229-300 | with distinct builders the lookups by id assess the candidate itself |
| Arbiter.AcceptExactlyWhen | src/arbiter/arbiter.ts:302-363 | a builder is accepted exactly when its candidate is the only one to pass verification, reach score and rubric coverage, match no anti-example and be reviewed, if at all, without blockers and with enough coverage |
| Arbiter.AcceptedIsClean | src/arbiter/arbiter.ts:241-300 | an accepted candidate was verified, or typechecked with tests waived; its last findings, if any, have no bug, no contract violation and nothing severe, and a reported coverage of at least the minimum, none counting as zero |
| Arbiter.RejectExactlyWhen | src/arbiter/arbiter.ts:318-352 | there is a rejection exactly when somebody was collected, all anti-examples are loaded and every candidate fails an objective gate |
| Arbiter.RejectionsGiveReasons | src/arbiter/arbiter.ts:479-510 | a rejection gives one reason per candidate, in order |
| ArbiterReasons.RejectionsNameTheGates | src/arbiter/arbiter.ts:479-510 | the reason for each candidate names exactly the gates that stand against it, in order |
| ArbiterReasons.EscalationsNameTheGates | src/arbiter/arbiter.ts:515-544 | the lines of an escalation are those of the candidates that pass every objective gate, each with the uncertain gates that stand against it |
| ArbiterReasons.OtherDecisionsExactlyWhen | src/arbiter/arbiter.ts:302-330 | nobody collected, a missing anti-example, and an escalation for uncertainty, each exactly when it is decided |
| Arbiter.NothingConcreteExactlyWhen | src/arbiter/arbiter.ts:515-544 | the decision is an escalation with nothing to say exactly when some candidate passes every objective gate and unreported review coverage is all that stands against each that does |
| Arbiter.NothingConcreteHappens | src/arbiter/arbiter.ts:537-544 | one candidate, one builder's findings and the default gates reach it |
| Arbiter.PickOneExactlyWhen | src/arbiter/arbiter.ts:302-363 | a human is asked to pick exactly when at least two candidates pass every gate |
| Arbiter.OffersAreTheWinners | src/arbiter/arbiter.ts:302-363 | on offer are exactly those, each with its own score, best first |
| Arbiter.AcceptedIsBacked | src/arbiter/arbiter.ts:254-300 | an accepted candidate was verified and its weighted sum reaches floor times coverage times total weight |
| Arbiter.AcceptedRanClean | src/arbiter/verifier.ts:60-105 | when tests are required and both commands run something, an accepted candidate's typecheck and tests exited with zero |
| Arbiter.SkippedIsNeverAccepted | src/arbiter/arbiter.ts:241-251 | a candidate whose verification was skipped is never accepted |
| GhostSafety.Report.AssessNode | src/ghost/safety.ts:70-105 | the rejections and the warning one node adds to the shared report |
| GhostSafety.AssessGraph | src/ghost/safety.ts:51-68 | all rejections and warnings, and "safe" exactly for graphs of low class without dangerous side effects |
| GhostSafety.NothingRejectedExactlyWhen | src/ghost/safety.ts:51-92 | no rejection is recorded exactly when the graph is safe |
| GhostSafety.SafeExactlyWhen | src/ghost/safety.ts:40-68 | a graph is safe exactly when its default class and every node's are at most one and no node has one of the six refused effects |
| GhostSafety.RejectedExactlyWhen | src/ghost/safety.ts:51-92 | exactly what is wrong is reported, with its code and its node |
| GhostSafety.WarnedExactlyWhen | src/ghost/safety.ts:93-105 | exactly the unverified nodes that write to the repository, write what is shared or open a pull request are warned about |
| GhostShift.TallyResults | src/ghost/shift.ts:554-567 | four counts that add up to the number of records |
| GhostShift.StatusIsFate | src/ghost/shift.ts:208-446 | how each file is reported and where it ends, from whether it loads, is safe, and how running it ends |
| GhostShift.GhostQueue.MoveFile | src/ghost/shift.ts:512-535 | a file moves from one directory to another, or the move fails and nothing changes |
| GhostShift.GhostQueue.ProcessOne | src/ghost/shift.ts:208-446 | a file ends in the directory its content and outcome call for, only safe graphs are run, the ledger says so, and a file that another shift took makes the call fail |
| GhostShift.GhostQueue.RunShift | src/ghost/shift.ts:124-206 | the files before the time budget ran out are reported and routed, the others stay, processed plus skipped is all of them, and the ledger gets each graph's events between those of start and end |
| GhostShift.ExecutedAreRunnable | src/ghost/shift.ts:208-446 | the executor gets exactly the safe graphs among the files taken, in order, and nothing in a dry run |
| GhostRuns.EveryFileInOneDirectory | src/ghost/shift.ts:208-446 | every queued file is in exactly one directory at every step of any number of shifts |
| GhostRuns.RunsAreSafeAndUnique | src/ghost/shift.ts:309-340 | only safe graphs are run, each file at most once across all shifts |
| GhostRuns.HoldersAreAlone | src/ghost/shift.ts:309-340 | two shifts never have the same file in hand, and routing it always finds it |
| GhostRuns.ShiftsAccountForTheirListing | src/ghost/shift.ts:159-170 | a shift reports a prefix of its listing, and that plus what it skipped is all of it |
| GhostRuns.ReportedFilesAreFiled | src/ghost/shift.ts:208-446 | in every run, whatever other shifts do and whoever crashes, a file reported by a shift is in the directory its report calls for |
| GhostRuns.StrandedForever | src/ghost/shift.ts:159-170 | a file that a crash left in `running/` is never picked up again |
| GhostRuns.StrandingHappens | src/ghost/shift.ts:309-340 | a run of one file and one shift strands it |
| GhostRuns.CrashStrandsExactlyWhen | src/ghost/shift.ts:309-340 | a crash strands a file exactly when the shift held it |
| CapacityProbe.RunBurstWave | src/inference/capacity-probe.ts:275-310 | every answer of a burst is tallied once |
| CapacityProbe.SampleLatency | src/inference/capacity-probe.ts:149-165 | the calls of the latency phase and how many of them were answered |
| CapacityProbe.Ramp | src/inference/capacity-probe.ts:189-232 | the waves follow the ramp until the budget does not cover the next one or one is refused too often |
| CapacityProbe.SafeRateMeaning | src/inference/capacity-probe.ts:189-232 | the safe rate is the size at the greatest position of the ramp that was run with no more refusals than the limit's share of its calls, or nothing |
| CapacityProbe.ProbeModelCapacity | src/inference/capacity-probe.ts:118-256 | the exact number of calls, which stays within the rounded budget; every wave tallies the answers to its own calls, the waves are a prefix of the ramp that stops at the first refusal rate over the limit, the safe rate is the last accepted one, and the recommended rate its fraction rounded down |
| CapacityBudget.BudgetHoldsExactlyWhen | src/inference/capacity-probe.ts:118-256 | a probe's calls stay within its budget for all answers of the provider exactly when the samples and then every ramp size it would try, rounded up to calls, fit |
| CapacityBudget.WholeRequestsHoldExactlyWhen | src/inference/capacity-probe.ts:135-152 | with whole samples and sizes: exactly when the budget is whole, not positive, or at least the samples asked for |
| CapacityBudget.WholeBudgetsHold | src/inference/capacity-probe.ts:135-152 | a whole budget is never overrun, whatever fractions are asked for |
| CapacityBudget.DefaultsHoldExactlyWhen | src/inference/capacity-probe.ts:118-140 | with the defaults: exactly unless the budget is a fraction below three |
| CapacityBudget.SamplesOverrun | src/inference/capacity-probe.ts:149-165 | a budget of two and a half calls makes three |
| CapacityBudget.FractionalBurstOverruns | src/inference/capacity-probe.ts:189-232 | a budget of 100.5 calls makes 101 when the ramp has a size of 97.25 |
| LatencyStats.PercentileMeaning | src/inference/capacity-probe.ts:332-336 | at least the fraction of the samples lies at or below the percentile and fewer at or below anything smaller |
| LatencyStats.PercentilesAreOrdered | src/inference/capacity-probe.ts:312-336 | percentiles are ordered and bracketed by the least and the greatest sample |

## Left out

- The policy evaluator, adapters, work-graph executor, provider responses and command exits are inputs without
  assumptions.  Intent classification is an input too: a route, a plan or a verdict arrives with the event.
- SQLite, gzip, fsync, JSON syntax and file systems: tables are maps and sequences, transactions are single steps,
  lines have an injective encoding without newlines, renames are atomic and on one file system.
- Strings that only identify something (command ids, session ids, workers) are numbers; timestamps are integers;
  random ids are supplied by the event, and a clash is refused as the tables would.
- Floating point: amounts, scores, weights and budgets are reals, and the square root is any function with its
  defining property.
- JSON numbers are finite: `Infinity` and `NaN` in a policy built in memory are not considered.
- Liveness: that a call waiting for a token or a semaphore, or a worker's heartbeat timer, is ever scheduled.
- A clock that goes backwards: all runs have non-decreasing clocks.
- CommandWorker.RunCommandWorkerLoop: the clock readings and heartbeat times of a loop are inputs, and nobody else
  touches the tables meanwhile; everything at once is `CommandRuns`.
- CommandTheorems.TablesAgreeInAtomicRuns: holds while cancel and resume are not interrupted;
  `CommandTables.ComesApartExactlyWhen` says exactly when they can do harm, and `CommandTheorems.RowsAgreeInEveryRun`
  states what every interleaving keeps.
- LedgerRuns.ArchivesLoseNothing: two archives with one cutoff in the same millisecond would share a file name; here
  every sidecar has its own file.
- Ledger.LedgerStore.AppendEvent: an event's kind, actor, trace and payload travel as one value.
- SidecarFile.ReadArchiveFile: a line that is neither an event nor a session marker stands for an unreadable event.
- Resubmission.CopyKeeps: the copy is routed to a verb with the same side effects, as the recorded approval class makes
  it; which verb the intent is routed to is not modelled.
- Arbiter.Decide: which diff matches which anti-example is an input.
- GhostShift.GhostQueue.RunShift: run summaries and durations are not modelled.
- CapacityProbe.ProbeModelCapacity: error previews and the mean latency are not modelled.
- Failure analysis, packets, briefs and every other rendering of text; the HTTP, CLI and launch-agent wrappers; memory
  search; credentials beyond whether a provider counts as enabled.
