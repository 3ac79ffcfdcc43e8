# Proofs about the GitHub QA agent

A Dafny model of the parts of the agent whose correctness ranges over runs, interleavings or all inputs: the
per-pull-request aggregate and the verdict drawn from it, the durable queue with its workers and codec, idempotent
publishing, the token cache, agent sessions, and the text and arithmetic algorithms (code spans, patch line numbers,
review payloads, pagination, impact areas). Check everything with `dafny verify dfyconfig.toml`.

## Layout

| files | what they model |
|---|---|
| `Basics`, `Text`, `Events` | containers, the Python string operations used, the event types |
| `Aggregate`, `AggregateLog`, `AggregateOrder`, `AggregateStore` | the aggregate, what an event log means for it, arrival order and re-delivery, the store object |
| `Feedback`, `CurrentVerdict`, `CIEvidence`, `StoreVerdict`, `FailureCoverage` | readiness, merged observations and strategy actions; the verdict over whole logs of a pull request and of the store, also field by field; which failures reach the strategy |
| `JobCodec`, `JobFormat`, `JobQueue`, `ClaimSweep`, `QueueRuns`, `Worker`, `WorkerLoop` | stored jobs and which of them read back, the Redis consumer group, the claim cursor, many workers with crashes, the retry loop, the drain loop |
| `ReviewPayload`, `ReviewText`, `Publishing`, `PublishingRuns`, `PublishingLimits`, `PublishingRaces` | preparing a review, what it says, the check-then-write protocol, any number of failing attempts, when a further one publishes again, any number of posters at once, call by call |
| `TokenCache` | double-checked locking, alone and interleaved |
| `AgentSessions`, `SessionRuns`, `ApiTarget`, `Validation` | the session manager, its whole lives, probe targets, validation of one event |
| `CodeSpan`, `Pagination`, `PathGroups`, `ImpactAreas` | the algorithms |
| `PatchLocator`, `PatchPieces`, `PatchHonesty` | the patch line locator and what a patch means; every printed patch as pieces of lines; when it is right, line by line |

Objects that the program updates in place are classes whose methods are proved against functions on values; the
theorems are about those functions, and for what an event, a message or a request comes to they are stated in its own
fields and words. What the program asks of the outside world is a parameter: clock readings, what a tool call, a runner
or an attempt does, which pending entries are idle, how timestamps are printed.

## What turned out not to hold

Each of these is stated exactly, for all inputs, next to the theorem it limits, with an input that shows it.

- `is_current_head` is not "the commit is the current head": a run is flagged if and only if its commit has been the
  head without interruption since the run was recorded (`CurrentFlagMeaning`). A run recorded before the PR event that
  names its commit stays history for good (`UnflaggedForGood`). The verdict does not depend on the flag
  (`VerdictNeedsOnlyHeadRuns`).
- Re-delivering a CI event files its run twice, while its event id is kept once (`CIRedeliveryDuplicates`).
- Arrival order matters before a pull request is known: the store drops CI that arrives before the first PR event with
  a head. It holds all CI of a pull request if and only if none arrived that early (`NothingIsDroppedIff`,
  `EarlyCIIsDropped`); from that event on, order does not change the verdict (`StoreOrderKeepsVerdict`).
- A failing check can stay invisible to the strategy, because a recorded run of the same name hides it whatever its
  conclusion; `FailingCheckIsActedOnIff` says exactly when, and a recorded success is enough
  (`RecordedSuccessHidesFailure`).
- The patch locator is off after an end-of-file marker, after a removed line that starts with `--`, at an added line
  that starts with `++`, and after lines or headings with a form feed or a similar character inside, since `splitlines`
  ends a line there. `LocatorIsRightIff` is the condition to check by: it goes line by line, for patches in which no
  piece of a broken line looks like a header or an added line. `LocatorIsRightExactlyIf` also covers those, by following
  the counter over the kinds of all pieces, which comes down to running the scan.
  `LastLineRewriteIsMislocated` and `BrokenContextIsMislocated` are inputs.
- A retry can publish again, because listings stop after 3000 items. After any history of failing attempts among
  others' activity, a further attempt that gets to the creation adds a review if and only if every review of ours lies
  beyond the first 3000, that is, was created when at least 3000 were there, and no listed review of anyone else matches
  (`RetryDuplicatesIff`); likewise the summary comment (`CommentDuplicatesIff`). `RetryAfterFailureDuplicates` and
  `RetryAfterFailureComments` are inputs.
- The head is checked once. A review is created on a commit that is no longer the head if and only if the last push
  between the check and the creation was another commit (`CreatedOnMovedHeadIff`, `PushAfterCheckIsMissed`).
- Posters at work at the same time can both publish. Among any number of them, under every interleaving of their
  calls, one that finishes created a review if and only if it listed the reviews before anyone had created one within
  the reach of a listing (`CreatesIffListedFirst`), so two of them both did if and only if both listed that early
  (`BothCreateIff`); with at most 3000 reviews there, that is before anyone had created one at all. The same holds of
  the summary comments (`BothCommentIff`). `RaceHappens` is such a run. With arbitrary activity of others around one
  attempt that finds no match, exactly one matching review is left if and only if none of theirs matches
  (`AttemptUnderInterference`).
- The comment of another user is overwritten if and only if it is the first listed one that carries the marker and
  holds another text (`CommentChangesIff`, `AnothersCommentIsOverwritten`).
- A run of a session writes back what it read before its runner started: what happened to that session meanwhile is
  undone, except as `RunKeepsMeanwhileIff` says exactly. A session closed while its runner works is active again
  afterwards (`ClosedDuringRunIsRevived`).
- A job whose metadata names another event type than its class does not read back (`JobCodec.RoundTripIff`,
  `MislabelledReadsBackAnother`); the version check also accepts `true` and `1.0`, as Python compares numbers.
- Grouping a path that has no component besides `.` raises (`GroupingRaisesIff`, `DotPathRaises`).

## Model

| member | source | states |
|---|---|---|
| Aggregate.Revision.Supersede | src/runtime/orchestrator/pr_aggregate.py:133-140 | superseding keeps all runs in order, none of them flagged current |
| Aggregate.MoveHeadRevision | src/runtime/orchestrator/pr_aggregate.py:198-216 | a PR event adds at most its own head's revision and changes of every other commit's runs only the flags of the head it retires |
| Aggregate.MoveHeadKeepsValid | src/runtime/orchestrator/pr_aggregate.py:198-216 | after a PR event exactly one revision is current and it is the new head's |
| Aggregate.RecordCIKeepsValid | src/runtime/orchestrator/pr_aggregate.py:218-227 | a CI event keeps the invariant, by which no run of another commit than the head is flagged current |
| Aggregate.ReviewKeepsValid | src/runtime/orchestrator/pr_aggregate.py:229-231 | a review request keeps the invariant |
| AggregateLog.RunKeepsValid | src/runtime/orchestrator/pr_aggregate.py:170-231 | the invariant holds of every aggregate any event log can build |
| AggregateLog.PREventSetsHead | src/runtime/orchestrator/pr_aggregate.py:183-216 | the head, title, repository and number of the aggregate a PR event creates or moves, in fields of the event: the head is its head sha without outer white space |
| AggregateLog.BlankHeadIsRefused | src/runtime/orchestrator/pr_aggregate.py:333-337 | a PR event with a blank head sha is refused and changes nothing |
| AggregateLog.HeadIsLastNamed | src/runtime/orchestrator/pr_aggregate.py:198-216 | the current head is the one named by the last PR event with a nonblank head |
| AggregateLog.RunsAfterStep | src/runtime/orchestrator/pr_aggregate.py:198-227 | the effect of any one event on the runs of any commit |
| AggregateLog.CurrentFlagMeaning | src/runtime/orchestrator/pr_aggregate.py:87-140 | over every log: each commit holds exactly its own CI events in order, flagged if and only if it has been the head ever since |
| AggregateLog.ReviewRunsMeanLog | src/runtime/orchestrator/pr_aggregate.py:229-231 | every review request is kept in order, bound to the commit that was the head at its time |
| AggregateLog.EventIdsAreLog | src/runtime/orchestrator/pr_aggregate.py:198-227 | the ids kept are exactly those of the CI events and the PR events with a head |
| AggregateOrder.RunsAreFilteredLog | src/runtime/orchestrator/pr_aggregate.py:218-227 | up to flags, a commit's runs are the log filtered by that commit |
| AggregateOrder.RevisionsAreFilteredLog | src/runtime/orchestrator/pr_aggregate.py:198-227 | which commits have a revision, read off the log |
| AggregateOrder.HeadIsFilteredLog | src/runtime/orchestrator/pr_aggregate.py:198-216 | head and title depend on the PR events alone |
| AggregateOrder.EventIdsAreFilteredLog | src/runtime/orchestrator/pr_aggregate.py:198-227 | which event ids are kept depends on the PR events and, commit by commit, the CI events |
| AggregateOrder.ArrivalOrderDoesNotMatter | src/runtime/orchestrator/pr_aggregate.py:198-290 | logs with the same PR events and the same CI events per commit, however interleaved, build aggregates with the same head, title, commits, runs per commit and event ids; run flags and the order of commits and ids may differ, review requests are not compared |
| AggregateOrder.FlaggedAfterItsHead | src/runtime/orchestrator/pr_aggregate.py:218-227 | a run recorded after its PR event is flagged current |
| AggregateOrder.UnflaggedBeforeItsHead | src/runtime/orchestrator/pr_aggregate.py:99-140 | a run recorded before the PR event that names its commit is still history right after that event |
| AggregateOrder.HistoryStays | src/runtime/orchestrator/pr_aggregate.py:99-227 | a run that is history is never changed again, whatever events follow |
| AggregateOrder.UnflaggedForGood | src/runtime/orchestrator/pr_aggregate.py:99-227 | so the run recorded before its PR event is history for good, though its commit is the head |
| AggregateOrder.PRRedeliveryIsIdempotent | src/runtime/orchestrator/pr_aggregate.py:198-216 | applying a PR event twice is applying it once |
| AggregateOrder.CIRedeliveryDuplicates | src/runtime/orchestrator/pr_aggregate.py:218-227 | recording a CI event twice files two runs under one event id |
| AggregateStore.OnPREventIsStep | src/runtime/orchestrator/pr_aggregate.py:306-309 | a PR event raises exactly on a blank head, otherwise creates or moves the aggregate of its own pull request |
| AggregateStore.InMemoryPRAggregateStore.ApplyPREvent | src/runtime/orchestrator/pr_aggregate.py:306-309 | the whole new dictionary and result; raising changes nothing |
| AggregateStore.InMemoryPRAggregateStore.RecordCICompleted | src/runtime/orchestrator/pr_aggregate.py:311-317 | CI without a known pull request is dropped; otherwise its aggregate takes the step and no other changes |
| AggregateStore.InMemoryPRAggregateStore.StartReviewRun | src/runtime/orchestrator/pr_aggregate.py:319-330 | the same for a review request |
| AggregateStore.InMemoryPRAggregateStore.Handle | src/runtime/orchestrator/pr_aggregate.py:293-330 | every event through its method is one step of the store specification |
| AggregateStore.StoreIsPerPR | src/runtime/orchestrator/pr_aggregate.py:293-330 | over every log of the store, each pull request holds exactly what its own events build |
| AggregateStore.CreatedByFirstHead | src/runtime/orchestrator/pr_aggregate.py:306-317 | the first nonblank head creates the aggregate, earlier events are dropped, later ones are folded |
| AggregateStore.NothingBeforeFirstHead | src/runtime/orchestrator/pr_aggregate.py:311-330 | without a nonblank head there is no aggregate |
| Feedback.ReadinessMeaning | src/runtime/orchestrator/pr_aggregate.py:233-257 | readiness in terms of the snapshot: only current-head checks count, pending beats failed |
| Feedback.BlockingMeaning | src/runtime/orchestrator/pr_aggregate.py:233-257 | what blocks is exactly the names of the head's pending checks, or of its failed ones when none is pending |
| Feedback.MergeCurrentObservations | src/runtime/orchestrator/pr_aggregate.py:376-401 | the one-pass loop with a growing list and a seen set computes the specified merge |
| Feedback.FreshAreDistinct | src/runtime/orchestrator/pr_aggregate.py:376-401 | added checks have distinct keys that no record has or names as a failed job |
| Feedback.EveryCheckIsRepresented | src/runtime/orchestrator/pr_aggregate.py:376-401 | every check is in the result by key or named by a record of its commit |
| Feedback.MergeIsIdempotent | src/runtime/orchestrator/pr_aggregate.py:376-401 | merging the same checks again changes nothing |
| Feedback.ResultMeaning | src/runtime/orchestrator/pr_aggregate.py:55-89 | a check as the provider words it is pending unless its status says completed, and failed if its conclusion says so as well, up to letter case and white space around the status |
| Feedback.CheckObservation | src/runtime/orchestrator/pr_aggregate.py:364-373 | a provider's check as an observation: its conclusion, or the word its status comes to, and itself as failed job if it failed |
| Feedback.CIFeedbackActions | src/core/strategy/rules.py:61-81 | the nested loops list the actions of each failing observation in order |
| Feedback.ActionsOfOne | src/core/strategy/rules.py:61-91 | an observation whose conclusion is one of five words, in any case and with white space around it, yields its workflow and then each failed job in order; any other yields nothing |
| Feedback.ActionsIff | src/core/strategy/rules.py:61-91 | an action is there if and only if some observation leads to it |
| Feedback.ActionPriorities | src/core/strategy/rules.py:61-91 | failed jobs outrank the workflows they are in, and failed workflows outrank cancelled ones |
| CurrentVerdict.ExportIsFilteredLog | src/runtime/orchestrator/pr_aggregate.py:259-290 | the exported context read off the log and the snapshot: the last named head, its CI merged with its checks, readiness and pending checks of the verdict, and as historical evidence exactly the CI of every other commit |
| CurrentVerdict.VerdictNeedsOnlyHeadRuns | src/runtime/orchestrator/pr_aggregate.py:233-290 | the verdict depends on nothing but the head and its runs, flags excluded |
| CurrentVerdict.ArrivalOrderKeepsVerdict | src/runtime/orchestrator/pr_aggregate.py:198-290 | interleaving changes neither readiness, observations nor actions |
| CurrentVerdict.StaleCIDoesNotInterfere | src/runtime/orchestrator/pr_aggregate.py:218-290 | removing or inserting any CI events of other commits than the final head changes nothing of the verdict, actions included |
| CurrentVerdict.ObservationsAreFilteredLog | src/runtime/orchestrator/pr_aggregate.py:259-290 | the observations, read off the event log |
| CurrentVerdict.StaleCIIsKept | src/runtime/orchestrator/pr_aggregate.py:273-290 | the historical evidence is, once for each commit with CI events that is not the head, all of that commit's CI in order, and nothing else |
| CIEvidence.RunsTellEvents | src/runtime/orchestrator/pr_aggregate.py:87-140 | the runs on file of a commit tell event id, workflow, conclusion, URL, failed jobs and commit of its CI events, in order and none missing |
| CIEvidence.ObservationsTellEvents | src/runtime/orchestrator/pr_aggregate.py:259-290 | the exported observations start with the CI events of the head, field by field in order, and are no others without checks of the head |
| CIEvidence.EvidenceTellsEvents | src/runtime/orchestrator/pr_aggregate.py:273-290 | a commit has historical evidence if and only if it had CI events and is not the head, and the evidence tells all of them field by field in order |
| CIEvidence.CIEventPrompts | src/core/strategy/rules.py:61-91 | a CI event of the head whose conclusion is one of the five words prompts the review of its workflow and of each of its failed jobs, whatever the checks say |
| CIEvidence.OnlyCIEventsPrompt | src/core/strategy/rules.py:61-91 | without checks of the head nothing else is prompted |
| StoreVerdict.StoredFromFirstHead | src/runtime/orchestrator/pr_aggregate.py:293-330 | over every log of the store, a pull request is there if and only if a head was named for it, and is what its entries from the first named head on build |
| StoreVerdict.StoreOrderKeepsVerdict | src/runtime/orchestrator/pr_aggregate.py:198-330 | two logs of the store in which a pull request has from its first head on the same PR events and the same CI per commit, whatever else arrived, give it the same aggregate up to flags and the same verdict |
| StoreVerdict.NothingIsDroppedIff | src/runtime/orchestrator/pr_aggregate.py:306-317 | a stored pull request holds all CI that arrived for it if and only if none arrived before its first head |
| StoreVerdict.EarlyCIIsDropped | src/runtime/orchestrator/pr_aggregate.py:306-317 | an input: CI then PR event leaves no observation, PR event then CI leaves one |
| FailureCoverage.ActionsName | src/core/strategy/rules.py:61-91 | the strategy speaks about a name if and only if a failing observation does |
| FailureCoverage.FailingCheckIsActedOnIff | src/runtime/orchestrator/pr_aggregate.py:376-401 | exactly when a failing current-head check reaches the strategy |
| FailureCoverage.RunHidesFailure | src/runtime/orchestrator/pr_aggregate.py:376-401 | a failing check is named by no action when a recorded run stands for its name and no recorded run fails under it; readiness then reports failed checks if and only if none is pending |
| FailureCoverage.RecordedSuccessHidesFailure | src/runtime/orchestrator/pr_aggregate.py:218-401 | a log and a snapshot where that happens: one recorded success, then the check fails |
| JobCodec.FilesRoundTrip | src/app/jobs.py:380-388 | changed files decode to what was encoded |
| JobCodec.MetaRoundTrips | src/app/jobs.py:391-398 | metadata decodes to what was encoded |
| JobCodec.FieldsRoundTrip | src/app/jobs.py:301-377 | the fields of all six event kinds decode to the event |
| JobCodec.RoundTripIff | src/app/jobs.py:254-355 | a stored job reads back as itself if and only if its metadata names its class |
| JobCodec.MislabelledReadsBackAnother | src/app/jobs.py:276-298 | an input: an opened pull request whose metadata says updated reads back as an updated one |
| JobCodec.JobFromMessage | src/app/jobs.py:254-261 | whatever does not decode becomes a malformed job with its delivery id |
| JobCodec.DecodedJobIsStable | src/app/jobs.py:276-298 | what decodes has the version and the payload's kind, and stores and reads back as itself when the metadata agrees |
| JobFormat.JobReadableIff | src/app/jobs.py:254-420 | which messages become event jobs, in terms of the fields, types and words they hold, and of which class; all others are malformed |
| JobFormat.MissingReadsAsDefault | src/app/jobs.py:301-388 | a missing optional field reads as its default |
| JobQueue.DequeuedIsPending | src/app/jobs.py:191-203 | what is handed out is pending, and nothing is handed out only when all is delivered |
| JobQueue.AckKeepsValid | src/app/jobs.py:205-207 | acknowledging removes exactly one id and keeps the stream's partition |
| JobQueue.RedisStreamsJobQueue.Enqueue | src/app/jobs.py:188-189 | the stream grows by exactly one entry, which stores the event and correlation id |
| JobQueue.RedisStreamsJobQueue.ClaimPending | src/app/jobs.py:220-232 | the cursor becomes what XAUTOCLAIM returns |
| JobQueue.RedisStreamsJobQueue.Dequeue | src/app/jobs.py:191-203 | claim first, read otherwise; the job handed out is the event and correlation id that were enqueued as that entry, under its delivery id |
| JobQueue.RedisStreamsJobQueue.Ack | src/app/jobs.py:205-207 | for any job: acknowledges exactly the entry whose delivery id it carries, leaves the stream alone without one, and raises on text that is no entry id |
| ClaimSweep.DistanceBound | src/app/jobs.py:220-232 | the distance of the sweep to an entry is at most the pending count plus one |
| ClaimSweep.DequeueApproaches | src/app/jobs.py:191-203 | each dequeue hands an idle entry out or comes closer to it, even while reading new entries |
| ClaimSweep.AckApproaches | src/app/jobs.py:205-207 | acknowledging other entries never moves the sweep away |
| ClaimSweep.ReadDelays | src/app/jobs.py:191-203 | another consumer's read moves the sweep at most one entry further away |
| ClaimSweep.HandedOutInTime | src/app/jobs.py:191-232 | with that many dequeues, and one more for each read of another consumer, among any acknowledgements and enqueues, an entry that stays idle is handed out |
| ClaimSweep.CursorMissesNothing | src/app/jobs.py:191-232 | from any cursor, an entry that stays idle is handed out within one dequeue more than there are pending entries, plus one for each read of another consumer meanwhile |
| QueueRuns.StepKeepsInv | src/app/worker/runner.py:125-153 | every step of every worker, crashes included, keeps the invariant and forgets nothing |
| QueueRuns.Conservation | src/app/jobs.py:188-207 | over all runs of any number of workers: each message is in exactly one of undelivered, pending and acknowledged, and acknowledged only after it was processed |
| QueueRuns.ConservationFromStart | src/app/jobs.py:188-207 | the same of every run from the empty queue |
| QueueRuns.PendingIsReached | src/app/jobs.py:191-232 | by legal steps a free worker comes to hold any pending message, if that message is idle |
| QueueRuns.UnreadIsReached | src/app/jobs.py:191-203 | by legal steps a free worker comes to hold any message nobody has read |
| QueueRuns.UnackedIsRecoverable | src/app/jobs.py:191-232 | from every state of the invariant, wherever workers crashed or stand, any worker can by legal steps come to hold any message that is not acknowledged, and acknowledge it |
| QueueRuns.TakenOverIsProcessedTwice | src/app/jobs.py:205-232 | a taken-over message is processed twice and the second acknowledgement is harmless |
| Worker.Worker.Process | src/app/worker/runner.py:80-123 | succeeds with the first attempt that returns, fails after the last that raised, fails malformed messages without an attempt |
| Worker.ExecutionIsUnique | src/app/worker/runner.py:80-123 | the attempts alone decide status and count; success if and only if some allowed attempt returns |
| WorkerLoop.HandledOneMore | src/app/worker/runner.py:125-133 | one dequeue and acknowledgement handles one more message, once, and brings the end closer |
| WorkerLoop.RunUntilEmpty | src/app/worker/runner.py:125-133 | the drain terminates with one result and one acknowledgement per message, each result the execution of the event enqueued as that message, in stream order when nothing is claimed, nothing left undelivered |
| ReviewPayload.SignedIsSigned | src/adapters/renderers/pr_comment.py:194-200 | signing gives trimmed, nonempty text with the signature |
| ReviewPayload.ReviewSigningIsSound | src/adapters/renderers/pr_comment.py:41-42 | signing is idempotent and affects neither a comment's place nor its validity |
| ReviewPayload.PrepareGivesPrepared | src/adapters/renderers/pr_comment.py:80-88 | preparation leaves only mapped, valid, signed comments |
| ReviewPayload.PreparedIsFixed | src/adapters/renderers/pr_comment.py:80-88 | prepared comments are a fixed point of preparation |
| ReviewPayload.TripKeepsPrepared | src/adapters/renderers/pr_comment.py:173-185 | the trip through the tool input loses at most a start side without a start line, and nothing on the wire |
| ReviewPayload.SubmittedBody | src/adapters/renderers/pr_comment.py:80-97 | a submitted body is trimmed, signed and carries the correlation marker |
| ReviewPayload.RepreparationIsNoOp | src/runtime/tools/github.py:154-168 | preparing again after the tool input changes neither body, event, head nor wire comments, and the marker survives trimming |
| ReviewText.BodyIsKept | src/adapters/renderers/pr_comment.py:80-97 | the submitted review is for the same pull request and head, its body starts with the given text and tells path and text of every comment without a place |
| ReviewText.PlainBody | src/adapters/renderers/pr_comment.py:91-200 | a text that names neither author nor run is followed by both, and by nothing else |
| ReviewText.CommentsAreKept | src/adapters/renderers/pr_comment.py:80-88 | the submitted comments are those with a path and a line, in order and none missing, each at its place, with its text in front and signed |
| ReviewText.SubmittedIff | src/adapters/renderers/pr_comment.py:80-88 | a review is submitted if and only if every comment with a place has a positive line, the right side and a start within its line |
| ReviewText.WireOfPrepared | src/adapters/renderers/pr_comment.py:44-55 | what goes over the wire for a prepared comment |
| ReviewText.WireIsSigned | src/adapters/renderers/pr_comment.py:44-55 | whatever is sent is signed, with the comment's text in front |
| Publishing.FirstWithMarker | src/runtime/tools/github.py:138-146 | finds the first comment with the marker, or none has it |
| Publishing.PersistedBodyHasMarker | src/runtime/tools/github.py:171-176 | the persisted body carries the marker |
| Publishing.PersistedBodyKeepsBody | src/runtime/tools/github.py:171-176 | the persisted text ends with the body, is the body when the marker is there, and is a fixed point |
| Publishing.PersistedBodyIsNotBlank | src/runtime/tools/github.py:171-176 | with a marker that is not blank, the persisted text is not either, so the client never refuses it |
| Publishing.TargetOkIff | src/runtime/tools/github.py:179-206 | a target is an owner, one slash, a name and a positive number |
| Publishing.MarkerReads | src/runtime/orchestrator/tool_output.py:168-168 | the text of the marker of a pull request |
| Publishing.GitHubTools.CommentCreateOrUpdate | src/runtime/tools/github.py:138-146 | the search loop updates the first listed comment with the marker or creates one, and touches nothing else; a blank text is refused |
| Publishing.GitHubTools.ReviewCreate | src/runtime/tools/github.py:154-168 | adds one trimmed review on the prepared head, or refuses a blank commit or empty review |
| Publishing.ToolRuntimePROutputPoster.PostOutputs | src/runtime/orchestrator/tool_output.py:27-43 | one attempt, with a fault possible before or after every call and others active in between, does what the protocol specification says |
| Publishing.ToolRuntimePROutputPoster.PostPrepared | src/runtime/orchestrator/tool_output.py:35-43 | nothing is written before the preflight has passed; a review is created only if none was found |
| Publishing.ToolRuntimePROutputPoster.WriteOutputs | src/runtime/orchestrator/tool_output.py:39-43 | the comment first; no review without the comment |
| Publishing.ToolRuntimePROutputPoster.Preflight | src/runtime/orchestrator/tool_output.py:59-129 | head check, then the search for an existing review |
| Publishing.ToolRuntimePROutputPoster.PostReview | src/runtime/orchestrator/tool_output.py:48-53 | the review alone, after the same preflight |
| PublishingRuns.CommentCall | src/runtime/tools/github.py:138-146 | the comment call drops no comment, changes none without the marker, leaves one with it and keeps ours unique within the listing |
| PublishingRuns.CommentChangesIff | src/runtime/tools/github.py:143-145 | a comment changes, whoever wrote it, if and only if it is the first listed one with the marker and does not hold the persisted text already |
| PublishingRuns.AnothersCommentIsOverwritten | src/runtime/tools/github.py:143-145 | for one, another user's comment that is just the marker gets our text |
| PublishingRuns.CreatedReview | src/runtime/orchestrator/tool_output.py:55-93 | the created review carries the correlation id on the head it was prepared for, so a later search finds it |
| PublishingRuns.PreflightKeepsSafe | src/runtime/orchestrator/tool_output.py:59-129 | a passed preflight means that a matching review exists or that none of ours is listed; a moved head means that nothing happened |
| PublishingRuns.AttemptKeepsSafe | src/runtime/orchestrator/tool_output.py:27-43 | whatever fails, an attempt keeps our output unique and touches no review and no comment without the marker; a success leaves the marked comment and the matching review; a stale head writes nothing |
| PublishingRuns.AtMostOne | src/runtime/orchestrator/tool_output.py:27-129 | over any run of failing attempts one after the other among others' activity, at most one review and one comment are created within the reach of the listings, all with the id on the head; every review that was there stays as it was, and so does every comment without the marker |
| PublishingRuns.FaultFreePostsIff | src/runtime/orchestrator/tool_output.py:27-129 | when an attempt without faults succeeds: valid target, the reviewed head, and a nonblank head or an existing review |
| PublishingRuns.ReviewsAfterAttempt | src/runtime/orchestrator/tool_output.py:27-129 | the reviews after an attempt nothing fails, with anything others do around its calls: theirs, and one more if and only if the listing found none |
| PublishingRuns.AttemptUnderInterference | src/runtime/orchestrator/tool_output.py:110-129 | the matching reviews then number one more than others alone leave, if none was found; so exactly one matches if and only if none of theirs does, in any window |
| PublishingRuns.ConcurrentAttemptsDuplicate | src/runtime/orchestrator/tool_output.py:110-129 | an input: a matching review that appears between listing and creation makes two |
| PublishingLimits.ReviewAddedIff | src/runtime/orchestrator/tool_output.py:27-129 | from any state and under any plan, an attempt adds one review of ours if and only if nothing stops it before the creation and no listed review matches, and none otherwise |
| PublishingLimits.CommentAddedIff | src/runtime/tools/github.py:138-146 | likewise one comment of ours, if and only if it gets to the comment call and no listed comment carries the marker |
| PublishingLimits.SearchesSee | src/runtime/orchestrator/tool_output.py:110-129 | both searches see the first 3000 items and nothing else: a review counts by commit and correlation id, a comment by the marker |
| PublishingLimits.RetryDuplicatesIff | src/runtime/orchestrator/tool_output.py:110-129 | after any history of failing attempts among others' activity, a further attempt that gets to the creation adds a review if and only if every one of ours is beyond the first 3000 and nobody else's listed one matches |
| PublishingLimits.CommentDuplicatesIff | src/runtime/tools/github.py:138-151 | the same of the summary comment |
| PublishingLimits.RetryAfterFailureDuplicates | src/runtime/orchestrator/tool_output.py:110-129 | an input: 2999 reviews, one more by someone else during an attempt whose creation reports a failure, and the retry makes a second one |
| PublishingLimits.RetryAfterFailureComments | src/runtime/tools/github.py:138-151 | an input: 3000 comments, a comment call that reports a failure, and the retry makes a second one |
| PublishingLimits.CreatedOnMovedHeadIff | src/runtime/orchestrator/tool_output.py:59-129 | a created review is on the reviewed commit, and that is no longer the head if and only if the last push during the attempt was another commit |
| PublishingLimits.PushAfterCheckIsMissed | src/runtime/orchestrator/tool_output.py:59-129 | an input: a push right after the head check, and the attempt posts on the old commit |
| PublishingRaces.RunKeepsInv | src/runtime/orchestrator/tool_output.py:27-129 | under every interleaving of any number of posters, stopping anywhere, with unrelated activity of others: who created what and who listed when stay consistent with the reviews and comments that exist |
| PublishingRaces.CreatesIffListedFirst | src/runtime/orchestrator/tool_output.py:27-129 | a poster that finishes created a review if and only if it listed the reviews before anyone had created one the listing reaches, and the comment likewise; a poster that stops created none otherwise |
| PublishingRaces.BothCreateIff | src/runtime/orchestrator/tool_output.py:110-129 | two posters that finish both created a review, so that there are two, if and only if both listed before anyone had created one the listing reaches; while at most 3000 are there, before anyone had created one |
| PublishingRaces.BothCommentIff | src/runtime/tools/github.py:138-146 | two posters that finish both created a summary comment if and only if both searched before anyone had created one the listing reaches; while at most 3000 are there, before anyone had created one |
| PublishingRaces.RaceHappens | src/runtime/orchestrator/tool_output.py:27-129 | from any fresh state, two posters calling in step both finish and both create a review |
| PublishingRaces.SoloIsAttempt | src/runtime/orchestrator/tool_output.py:27-129 | under every plan, the calls of one poster with a review the client accepts, not interrupted by another poster, leave what an attempt leaves: done if it posts, stopped otherwise |
| TokenCache.GitHubAppAuth.InstallationToken | src/adapters/connectors/github/auth.py:117-135 | one call: a cached token good for more than 60 seconds at one of its two readings is returned as it is, otherwise one is exchanged; a failure leaves the cache |
| TokenCache.SingleFlight | src/adapters/connectors/github/auth.py:117-135 | under every interleaving: one exchange at a time, spaced by expiry minus 60 seconds, the cache is the last exchange's, every returned token is its own call's exchange or good for more than 60 seconds at a reading of that call |
| TokenCache.ExchangeRate | src/adapters/connectors/github/auth.py:117-135 | the k-th later exchange reads a clock at least k lifetimes later, however many threads ask |
| TokenCache.NoDeadlock | src/adapters/connectors/github/auth.py:117-135 | while a thread is inside a call some step of a call can be taken |
| TokenCache.FinishAlone | src/adapters/connectors/github/auth.py:117-135 | a thread that has the lock or finds it free can finish its call on its own |
| TokenCache.EveryCallCanFinish | src/adapters/connectors/github/auth.py:117-135 | from every state any interleaving reaches, every started call can be finished by some legal continuation |
| TokenCache.SoloRunIsCall | src/adapters/connectors/github/auth.py:117-135 | the interleaved steps of an undisturbed call do what the method does |
| AgentSessions.SessionIdsDiffer | src/runtime/agent/manager.py:136-141 | ids with different counters differ, whatever repository, number and head precede them |
| AgentSessions.CloseAllMeaning | src/runtime/agent/manager.py:113-134 | closing ends exactly the matching records before the first refusal |
| AgentSessions.CloseAllResult | src/runtime/agent/manager.py:113-134 | the result lists what was closed, in order, unless the runner refuses |
| AgentSessions.CloseMeaning | src/runtime/agent/manager.py:88-134 | closing touches exactly the active sessions of that repository, pull request and head, and raises if and only if the runner refuses one of them |
| AgentSessions.ClosingInFields | src/runtime/agent/manager.py:88-134 | in fields of the records: only active sessions of that repository, number and other heads than the spared one end, cancelled or completed, with the reason, handle and turns kept; which refusals raise; what is listed |
| AgentSessions.WorkflowAgentSessionManager.constructor | src/runtime/agent/manager.py:33-36 | an empty manager that starts counting at one |
| AgentSessions.WorkflowAgentSessionManager.StartWorkflowSession | src/runtime/agent/manager.py:38-60 | the counter advances even if the runner raises; the record is filed under the returned handle |
| AgentSessions.WorkflowAgentSessionManager.RunStage | src/runtime/agent/manager.py:62-76 | only an active session runs; with any starts, runs and closings while its runner works, the record read before is written back with one more turn exactly if the runner returns |
| AgentSessions.WorkflowAgentSessionManager.CancelSupersededSessions | src/runtime/agent/manager.py:88-102 | cancels the active sessions of that repository and number that are not on the current head, and no others |
| AgentSessions.WorkflowAgentSessionManager.ClosePRSessions | src/runtime/agent/manager.py:104-111 | completes the active sessions of that repository and number, and no others |
| AgentSessions.WorkflowAgentSessionManager.CloseMatching | src/runtime/agent/manager.py:113-134 | the loop over the snapshot does what closing is specified to do |
| SessionRuns.StartEvolves | src/runtime/agent/manager.py:38-60 | starting uses an id that was never in use and changes no record |
| SessionRuns.StartedSession | src/runtime/agent/manager.py:38-60 | the one new record is for the repository, number, head, trigger and correlation id asked for, active and without turns |
| SessionRuns.SessionIdReads | src/runtime/agent/manager.py:136-141 | how a session id reads |
| SessionRuns.RunLeavesTurn | src/runtime/agent/manager.py:62-76 | the one new turn has the stage, correlation id and tools asked for and the status and error returned |
| SessionRuns.CloseEvolves | src/runtime/agent/manager.py:113-134 | closing drops nothing and leaves terminal sessions and all histories alone |
| SessionRuns.DoEvolves | src/runtime/agent/manager.py:38-134 | every operation, runs included when nothing else happens meanwhile, keeps the invariant, drops nothing and leaves terminal sessions alone |
| SessionRuns.RunKeepsMeanwhileIff | src/runtime/agent/manager.py:62-76 | with any starts, runs and closings during a run: exactly when none of it is undone |
| SessionRuns.ClosedDuringRunIsRevived | src/runtime/agent/manager.py:62-134 | any active session closed with its pull request during its run is active again afterwards |
| SessionRuns.LifeEvolves | src/runtime/agent/manager.py:33-141 | over every life of operations one after the other, from any point to any later one: records are never dropped, histories only grow, terminal sessions are final |
| SessionRuns.IdsAreNeverReused | src/runtime/agent/manager.py:38-60 | no two starts of a life ask for the same id, whatever lies between, and none for one in use |
| ApiTarget.ParsesIff | src/runtime/validator/agent_runtime.py:444-453 | a target parses if and only if it reads as a supported method and a path between white space |
| ApiTarget.AnyCaseIsRead | src/runtime/validator/agent_runtime.py:444-453 | a method is read in any case |
| ApiTarget.OddLettersAreRead | src/runtime/validator/agent_runtime.py:444-453 | so are the letters outside ASCII that upper-case to ASCII letters |
| Validation.AgentRunsIff | src/runtime/validator/agent_runtime.py:180-232 | the agent is run exactly for exposed API contract actions with a read-only method |
| Validation.VerdictIsSound | src/runtime/validator/agent_runtime.py:180-304 | a result is about its own action; its outcome is the probe's if and only if the action may be run, the agent run succeeded and the probe answered, and otherwise it neither passes nor fails; which refusal is given when |
| Validation.CompleteIff | src/runtime/validator/agent_runtime.py:149-158 | an event is validated if and only if its number is positive and repository, head and correlation id are not blank |
| Validation.EventTurn | src/runtime/validator/agent_runtime.py:180-232 | the turn an action of an event leaves, under the event's correlation id and with the validator's tools, and when it leaves one |
| Validation.AgentRuntimePRValidator.ValidateForEvent | src/runtime/validator/agent_runtime.py:149-178 | sound results one to one in order; the sessions are those of start, turns and close; no results if starting or closing raises |
| Validation.AgentRuntimePRValidator.RunActions | src/runtime/validator/agent_runtime.py:167-171 | every action gets its own sound result in order, and leaves its turn on this session only |
| Validation.AgentRuntimePRValidator.RunAction | src/runtime/validator/agent_runtime.py:180-304 | a sound result on one action, and the turn it leaves |
| Validation.EventClosesSessions | src/runtime/validator/agent_runtime.py:159-178 | after an event nothing is dropped or revived and sessions of other pull requests are unchanged; closing fails if and only if the runner refuses the new session or an active one of this repository and number, and otherwise all of them have ended |
| CodeSpan.LongestBacktickRun | src/adapters/renderers/pr_comment.py:333-341 | the pass with two counters computes the specified longest run |
| CodeSpan.LongestRunIsMaximum | src/adapters/renderers/pr_comment.py:333-341 | some run has that length and none is longer |
| CodeSpan.DelimitersMatch | src/adapters/renderers/pr_comment.py:324-330 | the CommonMark parser stops at the printed closing delimiter |
| CodeSpan.RoundTripIff | src/adapters/renderers/pr_comment.py:324-330 | section 6.1 of CommonMark 0.31.2 gives the text back if and only if it is nonempty, one line, and not wrapped in spaces |
| PatchLocator.FirstAddedLineFromPatch | src/runtime/orchestrator/tool_context.py:181-196 | the loop computes the specified scan |
| PatchLocator.AnalyzerFirstAddedLine | src/core/analyzer/rules.py:112-125 | the analyzer's copy answers the same on every input |
| PatchLocator.HeaderIsRead | src/runtime/orchestrator/tool_context.py:199-208 | every printed header is read as the start of the hunk's new lines |
| PatchPieces.SplitIsPieces | src/runtime/orchestrator/tool_context.py:185-185 | splitting printed lines, whatever characters they hold, gives the pieces of each line in order |
| PatchPieces.LineKinds | src/runtime/orchestrator/tool_context.py:185-195 | what the pieces of a printed line are to the scan: the first keeps the line's sign, the others stand for themselves |
| PatchPieces.LocatorIsKinds | src/runtime/orchestrator/tool_context.py:181-208 | the answer on any printed patch, with or without a final newline, in terms of those pieces |
| PatchPieces.LocatorIsRightExactlyIf | src/runtime/orchestrator/tool_context.py:181-208 | on every printed patch, whatever characters it holds: the answer is the first added line of the patched file, or None, if and only if the counter stops just as far ahead as there are lines to come |
| PatchHonesty.LocatorIsRightIff | src/runtime/orchestrator/tool_context.py:181-208 | on every printed patch whose headings and lines, up to the added line the scan stops at, hold no piece that looks like a header or an added line: the answer is right if and only if, in the first hunk that adds anything, no line up to the added one is a marker or looks like a file header and no further piece counts |
| PatchHonesty.LastLineRewriteIsMislocated | src/runtime/orchestrator/tool_context.py:181-196 | rewriting a last line without a newline is reported one line too low in the file |
| PatchHonesty.BrokenContextIsMislocated | src/runtime/orchestrator/tool_context.py:185-196 | a context line with a form feed inside counts twice |
| Pagination.List | src/adapters/connectors/github/client.py:81-104 | the page loop computes the specified walk; other page sizes and bad arguments are refused before any request |
| Pagination.ListingIsPrefix | src/adapters/connectors/github/client.py:144-170 | against N items exactly the first min(N, 30p), in order, with exactly min(30, N/p + 1) requests |
| Pagination.DefaultListingIsListed | src/adapters/connectors/github/client.py:228-254 | with the default page size this is the listing the publishing model uses |
| Pagination.FailsIff | src/adapters/connectors/github/client.py:256-317 | a listing fails if and only if one of the pages it asks for fails |
| PathGroups.GroupingRaisesIff | src/core/analyzer/rules.py:57-73 | exactly when grouping raises |
| PathGroups.DotPathRaises | src/core/analyzer/rules.py:57-73 | a path on which it raises |
| PathGroups.SlashesAreUnknown | src/core/analyzer/rules.py:57-73 | a path of slashes alone is in the group `unknown` |
| PathGroups.PartsOfJoined | src/core/analyzer/rules.py:57-73 | the parts of a normal path are its components, which determine its group |
| PathGroups.GroupIsPrefix | src/core/analyzer/rules.py:57-73 | a group is a leading piece of the path |
| PathGroups.GroupReads | src/core/analyzer/rules.py:57-73 | a file in a top directory is grouped by its first component, one under `.github` by its first two, any other by its directory |
| PathGroups.SameGroupIffSameDirectory | src/core/analyzer/rules.py:57-73 | deep files outside `.github` share a group if and only if they share a directory |
| ImpactAreas.SortedAscends | src/core/analyzer/rules.py:42-42 | the sorted keys ascend strictly by code points |
| ImpactAreas.LessReads | src/core/analyzer/rules.py:42-42 | the order: at the first difference the smaller code point, or the end, comes first |
| ImpactAreas.BuildImpactAreas | src/core/analyzer/rules.py:35-54 | areas strictly sorted, one per path group that occurs, each with exactly its files in input order; none if and only if some path has no component besides `.` |
| ImpactAreas.SameAreaIffSameDirectory | src/core/analyzer/rules.py:35-73 | deep files outside `.github` are in the same area if and only if they are in the same directory |
| ImpactAreas.AreasAreUnique | src/core/analyzer/rules.py:35-54 | only one list of areas has these properties |
| ImpactAreas.AreasPartition | src/core/analyzer/rules.py:35-54 | every file is in exactly the area of its group and the areas hold as many files as were changed |
| ImpactAreas.CountersAddUp | src/core/analyzer/rules.py:76-91 | the seven status counters add up to the files changed |
| ImpactAreas.EveryFileIsCounted | src/core/analyzer/rules.py:76-91 | one more file raises the totals by its lines and exactly the counter of its status |

## Left out

- JobQueue.RedisStreamsJobQueue.Dequeue: entries trimmed or deleted from the stream, blocking reads and several streams are not modelled; entry ids are their positions.
- JobCodec.RoundTripIff: JSON text and ISO timestamps are not modelled; the timestamp format is any one that parses back what it prints.
- PublishingRuns.AtMostOne: comments and reviews that users edit or delete are not modelled; the review payload is taken to name the same pull request as the comment payload.
- Publishing.GitHubTools.CommentCreateOrUpdate: when the client's listing fails part way, that is the fault before the call's effect; HTTP statuses are not distinguished.
- TokenCache.SingleFlight: fairness of the lock is not modelled, only that no state is stuck.
- CodeSpan.RoundTripIff: only inline parsing from the start of the span; block structure and other inline constructs are not modelled.
- PatchLocator.HeaderIsRead: integers in headers are read as ASCII digits with signs and underscores; other Unicode digits, which `int()` also accepts, are not modelled.
- Pagination.List: item conversion (the payload converters) is left out; a page is what the request yields after its shape check.
- Validation.AgentRuntimePRValidator.RunAction: detail texts are kept as what they say, without wording, redaction and durations.
- AgentSessions.WorkflowAgentSessionManager.RunStage: a run made while another one's runner works is over before that runner answers; runs that overlap without one containing the other are not modelled.
- ImpactAreas.BuildImpactAreas: the description of an area is prose over its name and files and is not modelled.
- ImpactAreas.CountersAddUp: the first changed file and line and the summary are not modelled; status words are taken as normalized.
- Lower- and upper-casing are exact as far as comparison with the ASCII words of the code can tell.
- `InMemoryJobQueue`, `run_forever` and the timing checks: short and without further claims; `run_forever` takes the same steps as the modelled workers.
- The order in which the aggregate keeps event ids is not part of any claim.
- Report prose, the wording of actions (description, target, rationale), summary sentences, section layout, prompts, providers, tracing, configuration, the webhook server, HTTP, PyJWT and redaction: wiring or library behaviour.
- Wall-clock timeouts of an attempt: a timeout is an attempt that raises.
- Knowledge search, triage parsing, chat stubs, dispatch and stage policy: short case splits.
