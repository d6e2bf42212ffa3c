# MasterAgent: verified models of its protocols

This project models, in Dafny, the parts of MasterAgent whose correctness spans many calls, and proves what
they promise. Every module belongs to one component:

| files | component |
|---|---|
| `TaskStore.dfy`, `TaskRuns.dfy`, `TaskCalls.dfy` | the resumable task store: rows shared by worker objects, each method one transaction; then any interleaving of workers, crashes, cancels, resumes, resolves and retries |
| `Publication.dfy`, `PublicationWorkflow.dfy`, `PublicationOutcome.dfy` | check runs, the publication gate and the three checkpointed writes over any sequence of user calls; when a call publishes, and that nothing is sent again |
| `Reviews.dfy`, `ReviewWorkflow.dfy`, `ReviewOutcome.dfy` | reviews that reuse saved source results across failures, and what one review reads and reports |
| `Pagination.dfy`, `LookBeforePost.dfy` | bounded pagination and the tools that look before they post |
| `AuditChain.dfy`, `AuditReadings.dfy`, `IdempotencyClaims.dfy`, `RunCheckpoints.dfy` | the hash-linked audit log and how far its checkpoint determines it, the idempotency ledger, the run checkpoints |
| `Specifications.dfy`, `SpecArchive.dfy`, `ArchiveHistory.dfy`, `ChangeToml.dfy` | the specification archive, its agreement with history, and the change metadata file |
| `GitTree.dfy`, `SourceOfTruth.dfy` | the raw Git tree parser and the source-of-truth check |
| `AdvisoryBudget.dfy`, `Sanitizer.dfy`, `Negation.dfy`, `Routing.dfy` | delegation budgets, the payload sanitizer, negation scopes and routing |

Objects that the program changes in place are classes here, and loops are loops. Each such method is proved
equal to a function of the state before it (`Do...` in `TaskStoreModel`, the functions of the same name in
`Publication` and `Reviews`, `Claim`, `Recorded`, `Traverse`, and so on), or to a declarative definition. What
those functions have to do is then stated without them, call by call (the lemmas named `...Exactly`, over every
outcome) and over runs. SHA-256, HMAC, JSON encoding, Unicode
normalization, the clock and the network are parameters; a lemma names each property of them that it needs.
`uuid4` tokens are drawn from a counter.

Results that were not expected from the documentation:

- The change metadata renderer does not escape U+007F, which the loader accepts: such a change cannot be read
  back (`ChangeToml.RenderReadsBack` says exactly when it can, `DelIsNotEscaped` gives an input that loads), so
  archiving it is rolled back (`ArchiveHistory.UnreadableMetadataIsRolledBack`).
- Verification of the audit log accepts exactly one reading of the hashes when no field of any event holds `|`,
  and another one as soon as one field does, the payload included (`AuditReadings.UniqueExactlyWithoutBars`,
  `SeparatorsMakeEventsAmbiguous`). Between two logs that `record` wrote this ambiguity cannot arise, because a
  JSON text never follows a bar inside another one (`AuditReadings.RunsWithOneCheckpoint`).
- A comment that quotes another task's stamp suppresses that task's comment
  (`LookBeforePost.PostedCommentIsFound`).
- A card with an intent without letters or digits is eligible for every prompt its filters let through
  (`Routing.TokenlessIntentsMatchAnything`, `MatchesEveryPromptExactly`; `DashMatchesEveryPrompt` gives a card).
- `retry_step` without the confirmation it asks for always leaves a run that applies the write twice
  (`TaskRuns.UnconfirmedRetryCanDuplicate`).
- A run checkpoint is advanced by the state a caller names, not by the sequence it saw: an old request is
  accepted exactly when the run is in the state it expects, however often the state recurred
  (`RunCheckpoints.StaleRequestsAreAcceptedExactly`; `RecurringStateIsAccepted` gives a detour).
- If deleting the temporary copies fails, `archive_change` raises although the change is archived; every other
  failure raised as an ordinary exception leaves all files as they were
  (`SpecArchive.SpecTree.ArchiveChange`, replies `CleanupFailed` and `RolledBack`).

## Model

| member | source | states |
|---|---|---|
| `TaskStoreModel.TaskStore.Create` | simple/masteragent/state.py:143-166 | a new running task of generation 0 without steps appears under an unused ID, nothing else changes |
| `TaskStoreModel.TaskStore.Active` | simple/masteragent/state.py:116-131 | a worker is turned away exactly when the task is missing or not running, or the worker's cached generation is not the row's |
| `TaskStoreModel.TaskStore.BeginStep` | simple/masteragent/state.py:213-287 | returns a completed checkpoint untouched, refuses interrupted writes and changed write classes, and otherwise claims the step under a fresh token, numbering a new row by the count of the task's rows |
| `TaskStoreModel.TaskStore.SaveStep` | simple/masteragent/state.py:289-324 | saves only a running row whose claim this worker holds, and clears the claim in row and memory |
| `TaskStoreModel.TaskStore.Finish` | simple/masteragent/state.py:326-341 | completes an active task only when every step is completed |
| `TaskStoreModel.TaskStore.Wait` | simple/masteragent/state.py:343-352 | pauses an active task with a result |
| `TaskStoreModel.TaskStore.Fail` | simple/masteragent/state.py:354-363 | fails an active task and keeps its earlier result when none is supplied |
| `TaskStoreModel.TaskStore.Cancel` | simple/masteragent/state.py:365-381 | advances the generation and turns running writes uncertain and running reads failed, without claims |
| `TaskStoreModel.TaskStore.Resume` | simple/masteragent/state.py:383-395 | advances the generation, and only the calling worker adopts it |
| `TaskStoreModel.TaskStore.ResolveStep` | simple/masteragent/state.py:397-424 | completes only an interrupted or uncertain write, with the observed result |
| `TaskStoreModel.TaskStore.RetryStep` | simple/masteragent/state.py:426-460 | makes only an interrupted or uncertain write retryable and fences its earlier worker by a new generation |
| `TaskStoreModel.TaskStore.Note` | simple/masteragent/state.py:462-469 | replaces the note and nothing else |
| `TaskRuns.InvariantKept` | simple/masteragent/state.py:213-460 | every store call, crash and landing of a remote effect keeps the invariant on rows, claims, generations and the ledger of effects |
| `TaskRuns.Reached` | simple/masteragent/state.py:213-460 | the invariant holds in every state any interleaving of workers can reach from an empty store |
| `TaskRuns.WritesApplyAtMostOnce` | simple/masteragent/workflows.py:90-109 | over every interleaving a write step's remote effect is applied at most once, and exactly once if the worker that ran it completed it |
| `TaskRuns.AttemptsAreBounded` | simple/masteragent/state.py:239-287 | a write's attempt never exceeds 1 + definite failures + retries, with equality unless it has just failed |
| `TaskRuns.ExistingStepsWereAttempted` | simple/masteragent/state.py:239-287 | every step that exists was attempted at least once, through every run |
| `TaskRuns.OneOwner` | simple/masteragent/state.py:289-312 | in every reachable state a step has a claim exactly when it is running, at most one worker can save it, and positions are 0..n-1 |
| `TaskRuns.StaleWorkIsRefused` | simple/masteragent/state.py:116-131 | begin, save, finish, wait and fail by a worker with a stale generation change no row and not its memory |
| `TaskRuns.StaleWorkerIsFenced` | simple/masteragent/state.py:116-131 | a stale worker stays without influence on the task through any run until it resumes or retries the task itself |
| `TaskRuns.CompletedStepsNeverChange` | simple/masteragent/state.py:257-258 | a completed step keeps its row through every continuation |
| `TaskRuns.CompletedTasksNeverChange` | simple/masteragent/state.py:326-395 | a completed task keeps its row, except the note, and exactly its steps through every continuation |
| `TaskRuns.UnconfirmedRetryCanDuplicate` | simple/masteragent/state.py:426-460 | if an effect was applied or may still land when a write is retried, some continuation applies it twice |
| `TaskCalls.AnsweredExactly` | simple/masteragent/state.py:143-469 | in every reachable state: exactly which create, finish, wait, fail, cancel, resume, resolve, retry and note calls are answered; a refused one changes nothing |
| `TaskCalls.BegunExactly` | simple/masteragent/state.py:237-266 | a step is started exactly for an active worker and a step that is new, or neither completed nor a write in doubt; exactly a completed one is handed out |
| `TaskCalls.BeginningBinds` | simple/masteragent/state.py:239-242 | whatever the step says, an active worker that begins one is bound to the task's present generation |
| `TaskCalls.SavedExactly` | simple/masteragent/state.py:289-312 | an outcome is saved exactly for the active worker that holds the claim of the running step |
| `TaskCalls.ResumingSupersedes` | simple/masteragent/state.py:383-395 | an answered resume moves the task to a new generation: the caller holds it and may work, every other worker that knew the task is stale |
| `TaskCalls.RetryingSupersedes` | simple/masteragent/state.py:426-460 | so does an answered retry, which makes the write executable and leaves nobody who can save it |
| `TaskCalls.CancellingSupersedes` | simple/masteragent/state.py:365-381 | an answered cancel leaves everyone who knew the task stale, the caller included, no step running, and writes in doubt in doubt |
| `TaskCalls.GenerationsCountTakeovers` | simple/masteragent/state.py:365-460 | over every run the generation of a task counts its answered cancels, resumes and retries |
| `TaskCalls.SupersededExactly` | simple/masteragent/state.py:116-131 | a worker that is up to date becomes stale in a run exactly if the task is taken over in it |
| `TaskCalls.CreatedTask` | simple/masteragent/state.py:143-166 | creating adds one row with the given inputs and no steps, on which the creator may work |
| `TaskCalls.TaskRowIsReplay` | simple/masteragent/state.py:326-469 | over every run a task's status, result, error, note and generation are what the answered calls about it made of them, in order; work on steps never touches them |
| `TaskCalls.StepRowsMove` | simple/masteragent/state.py:213-460 | every step row after every event: position, status, result, error, attempt and claim |
| `TaskCalls.CompletedResultIsReused` | simple/masteragent/state.py:257-258 | once a step is completed with a result, by its worker or by `resolve_step`, every later begin through any run returns that result or is refused |
| `TaskCalls.UncertainWritesWait` | simple/masteragent/state.py:259-266 | through any run a write whose outcome is uncertain is never begun again, whoever resumes the task, until the user resolves or retries it, which then succeeds |
| `PublicationWorkflow.Workflows.Act` | simple/masteragent/workflows.py:98-109 | sends the request at most once and saves completed, failed or uncertain, or dies with the row still running |
| `PublicationWorkflow.Workflows.Step` | simple/masteragent/workflows.py:90-109 | begins, acts and saves as the step function says, reusing a completed result without sending anything |
| `PublicationWorkflow.Workflows.Sources` | simple/masteragent/workflows.py:144-213 | runs the source steps in order, collecting the errors of optional ones and stopping at any other |
| `PublicationWorkflow.Workflows.RunPublication` | simple/masteragent/workflows.py:443-539 | resumes, refreshes unfinished sources and then keeps the refreshed review in the result, passes the gate unless the push is done, and runs the three writes in order |
| `PublicationWorkflow.Workflows.PublishWrites` | simple/masteragent/workflows.py:493-531 | push, pull request and comment, each using the results of the ones before it |
| `PublicationWorkflow.Workflows.Checks` | simple/masteragent/workflows.py:363-395 | records evidence of a check run only for a prepared task on its own branch |
| `PublicationWorkflow.Workflows.Publish` | simple/masteragent/workflows.py:397-441 | replaces the parameters on file only while no write step exists |
| `PublicationWorkflow.Workflows.Resume` | simple/masteragent/workflows.py:592-609 | continues the publication with the parameters on file |
| `Publication.PerformKeepsInv` | simple/masteragent/workflows.py:363-539 | every user call keeps: each request in the log is justified by earlier entries and the rows agree with the log |
| `Publication.RunKeepsInv` | simple/masteragent/workflows.py:363-609 | so does every sequence of checks, publish, cancel, resume, resolve and retry calls |
| `Publication.PushesWereChecked` | simple/masteragent/workflows.py:462-498 | every push the tool sends is of the task's branch at a commit for which the last check run before it passed with a clean worktree on an unchanged head |
| `Publication.WritesFollowEachOther` | simple/masteragent/workflows.py:493-534 | the push is done before the pull request, both before the comment, with their recorded results, and the comment before the task finishes |
| `Publication.OneParameterSetIsUsed` | simple/masteragent/workflows.py:421-441 | all requests of a task carry one parameter set, the one on file |
| `Publication.ParametersFreeze` | simple/masteragent/workflows.py:427-438 | from the first write step on no call changes the parameters |
| `Publication.CommentsTellTheTruth` | simple/masteragent/workflows.py:518-531 | when the tool made the push, the commit the comment names had passed its checks |
| `PublicationOutcome.StepExactly` | simple/masteragent/workflows.py:90-109 | a completed step is reused, one in doubt refused, any other executed and saved as completed, failed or uncertain, or left running by a death |
| `PublicationOutcome.SourcesExactly` | simple/masteragent/workflows.py:144-213 | collecting sources ends normally exactly if each has a result in the end or is optional, without errors exactly if each has one; completed ones stay as they are |
| `PublicationOutcome.PublishesExactly` | simple/masteragent/workflows.py:397-539 | `publish` goes through exactly if the task is publishable, every unfinished read succeeds, the last check run passed at the commit checked out clean, or the push is done, and each write has or gets its result; then exactly the missing requests are sent in order, their results saved, and the task finished with its new result; otherwise the task fails or its process died |
| `PublicationOutcome.ResumesExactly` | simple/masteragent/workflows.py:592-605 | resuming a publication does the same with the parameters on file, also for a cancelled task |
| `PublicationOutcome.DevelopsExactly` | simple/masteragent/workflows.py:328-361 | without a publication on file, resuming waits with the handoff exactly if every source is read or optional |
| `PublicationOutcome.ChecksExactly` | simple/masteragent/workflows.py:363-395 | after a check run exactly the commit it passed at may be pushed, and none if it failed, whatever was recorded before |
| `PublicationOutcome.SourcesBeforeRequests` | simple/masteragent/workflows.py:449-461 | a call that finds an unfinished read sends nothing unless every source it collects is completed |
| `PublicationOutcome.RequestsFollowSources` | simple/masteragent/workflows.py:449-461 | so over every sequence of calls: each request was sent by a call that found all reads completed or completed all its sources, for good |
| `PublicationOutcome.SpentIsNotSent` | simple/masteragent/workflows.py:493-531 | a write that is running, uncertain or completed is not sent by any later call until the user retries it |
| `PublicationOutcome.NothingIsSentAgain` | simple/masteragent/workflows.py:493-531 | a request that was sent and did not fail definitely is not sent again by any later call until the user retries it |
| `ReviewWorkflow.Workflows.Provider` | simple/masteragent/workflows.py:130-142 | calls a configured provider only if the saved connection equals the current one; the process may die while it saves it |
| `ReviewWorkflow.Workflows.PullRequest` | simple/masteragent/workflows.py:181-200 | the pull request at one index and then its builds; the builds are asked for the very result of the pull request |
| `ReviewWorkflow.Workflows.PullRequests` | simple/masteragent/workflows.py:180-200 | all indices in order, errors collected, ending early only if the process dies |
| `ReviewWorkflow.Workflows.Page` | simple/masteragent/workflows.py:201-213 | the page at one index |
| `ReviewWorkflow.Workflows.Pages` | simple/masteragent/workflows.py:201-213 | one step per page, errors collected |
| `ReviewWorkflow.Workflows.ReviewSources` | simple/masteragent/workflows.py:144-213 | issue, saved sources, at most five pull requests and three pages |
| `ReviewWorkflow.Workflows.Run` | simple/masteragent/workflows.py:299-317 | finishes the task with the report without errors, fails it with the report with some, and without one after any other error, a refused finish included |
| `Reviews.RunKeepsInv` | simple/masteragent/workflows.py:130-213 | every sequence of runs, cancels and restarts keeps saved results tied to their source |
| `Reviews.ReusedResultsMatchTheirSource` | simple/masteragent/workflows.py:130-213 | from a task without steps, over every sequence of failures and of deaths in any step: a saved pull request or page is what the provider returned for the link now at its index, and saved builds for that pull request |
| `Reviews.OneTargetPerProvider` | simple/masteragent/workflows.py:130-142 | all calls the reviews of a task make to a configured provider saw one url and deployment |
| `Reviews.SavedSourcesAreKept` | simple/masteragent/workflows.py:174-178 | the saved list of links never changes, whatever later runs find |
| `ReviewOutcome.AsksExactly` | simple/masteragent/workflows.py:90-142 | a provider step without deaths: a saved result is reused, otherwise the provider is called exactly if the task's saved connection is the current one |
| `ReviewOutcome.ReviewsExactly` | simple/masteragent/workflows.py:144-317 | without deaths: if the issue cannot be read the task fails; otherwise each of the first five pull requests, its builds and each of the first three pages is saved exactly if it can be read, whatever happens to the others, and the task is completed with the report exactly if nothing is missing, and failed with it otherwise |
| `ReviewOutcome.DyingLeavesTheTask` | simple/masteragent/workflows.py:90-109 | a process that dies in a review leaves the task as it was and takes its claims along |
| `Pagination.Pages` | simple/masteragent/providers.py:153-214 | the loop over current and seen is the traversal function |
| `Pagination.YieldItems` | simple/masteragent/providers.py:171-175 | yields the leading objects of a page and accepts the page exactly if all items are objects |
| `Pagination.CompleteOrFails` | simple/masteragent/providers.py:153-214 | at most ten requests and none twice, a last failing one included; it ends normally exactly if a finished chain of at most ten good pages exists; what it delivered are the items of its good pages in order and the leading objects of a bad last one |
| `Pagination.RequestsFollowPages` | simple/masteragent/providers.py:176-211 | each request is the continuation the page before names, and only one that may be followed: a validated link, an offset that is given and not negative, or one past a page with items; how the traversal ends is what its last page says |
| `Pagination.HonestListing` | simple/masteragent/providers.py:176-211 | against an honest server paging n items by m, by next links, nextPageStart or startAt and total, it ends normally exactly when n is at most 10 m, with all n items, and with the first 10 m of them otherwise |
| `LookBeforePost.DocumentText` | simple/masteragent/providers.py:19-31 | the text of the Cloud document built from the lines of a content is the content and one line end |
| `LookBeforePost.StampsInContent` | simple/masteragent/providers.py:562-568 | a comment contains a marker's stamp exactly if it was posted under that marker or its text quotes the stamp |
| `LookBeforePost.PostedCommentIsFound` | simple/masteragent/providers.py:564-580 | discovery finds a posted comment exactly in those cases, on Cloud and Data Center |
| `LookBeforePost.Providers.CommentIssue` | simple/masteragent/providers.py:539-587 | refuses bad arguments, otherwise discovers and posts at most one comment carrying body and stamp |
| `LookBeforePost.Providers.CreatePullRequest` | simple/masteragent/providers.py:439-537 | refuses bad arguments, otherwise reuses the matching pull request or asks for one |
| `LookBeforePost.Scan` | simple/masteragent/providers.py:489-496 | the first decisive item decides: found, unreadable, or none |
| `LookBeforePost.CreatedPullRequestIsFound` | simple/masteragent/providers.py:269-316 | normalization recognises a created pull request as the requested pair, also when Data Center upper-cases the project key |
| `LookBeforePost.PostsOnlyTheFirst` | simple/masteragent/providers.py:489-532 | with a wanted item on the server, or more than ten pages listed, nothing is posted |
| `LookBeforePost.SecondCommentPostsNothing` | simple/masteragent/providers.py:562-587 | once a comment is stored, even with its answer lost, no later call under the marker stores another |
| `LookBeforePost.SecondPullRequestPostsNothing` | simple/masteragent/providers.py:489-532 | while the created pull request is open, no later call for the pair stores another |
| `LookBeforePost.RepeatsLeaveOne` | simple/masteragent/providers.py:439-587 | over any run of attempts with any outcomes between changes by others, at most one wanted item exists unless more did at the start |
| `LookBeforePost.DecisiveItemDecides` | simple/masteragent/providers.py:489-496 | with a wanted or unreadable item in reach the first of them is returned, or blocks the request |
| `LookBeforePost.WantedItemIsReturned` | simple/masteragent/providers.py:489-496 | if all items in reach can be read and one is wanted, a wanted one is returned and nothing is requested |
| `LookBeforePost.AttemptsExactly` | simple/masteragent/providers.py:489-587 | otherwise the request is made exactly if discovery saw everything; it adds the item exactly if it was stored, and the reply is posted, failed or uncertain exactly by what became of it |
| `LookBeforePost.NewCommentText` | simple/masteragent/providers.py:564-580 | a posted comment reads as its text without trailing white space, an empty line and the stamp |
| `LookBeforePost.FirstCommentIsPosted` | simple/masteragent/providers.py:557-587 | with no stamped comment on at most ten pages a call with a good marker and text posts one comment and says how that went; any other marker or text is refused |
| `LookBeforePost.PullRequestsAreToldApart` | simple/masteragent/providers.py:269-316 | a pull request is taken for the requested one exactly if it is of the same branches and repository, project keys compared without case |
| `LookBeforePost.FirstPullRequestIsPosted` | simple/masteragent/providers.py:462-537 | with only pull requests of other pairs on at most ten pages a call with good arguments asks for one and says how that went; any other is refused |
| `LookBeforePost.PullRequestWithoutIdBlocks` | simple/masteragent/providers.py:489-496 | a pull request whose ID is missing or not a number blocks the request unless a matching one comes before it |
| `LookBeforePost.CommentWithoutIdBlocks` | simple/masteragent/providers.py:565-567 | so does a stamped comment without an ID |
| `AuditChain.AuditLog.constructor` | src/master_agent/audit.py:770-864 | a new database holds no events and the genesis checkpoint |
| `AuditChain.AuditLog.Record` | src/master_agent/audit.py:122-189 | appends one row linked to the checkpoint and moves the checkpoint, or fails without change when the chain is out of step |
| `AuditChain.AuditLog.Verify` | src/master_agent/audit.py:706-768 | accepts exactly the logs whose links and hashes all hold and whose checkpoint has their count and last hash, and otherwise says exactly what is wrong, the first bad event or the checkpoint |
| `AuditChain.RecordStaysInStep` | src/master_agent/audit.py:141-189 | recording into a log that is in step succeeds and stays in step |
| `AuditChain.RecordedLogsAreAccepted` | src/master_agent/audit.py:141-189 | every run of records from a new database succeeds, holds the events in order, and is accepted |
| `AuditChain.MaterialText` | src/master_agent/audit.py:153-164 | what is hashed: previous hash, timestamp, run, plan, action, event type and payload in this order, with bars between them |
| `AuditChain.RecordingHealsNothing` | src/master_agent/audit.py:141-189 | recording goes ahead exactly if the checkpoint names the last hash, and the log is accepted then exactly if all before was in step, so no record hides an earlier change |
| `AuditChain.MaterialIsUnambiguous` | src/master_agent/audit.py:153-164 | when the fields before the payload hold no separator in either row, equal hash material means equal rows up to a missing versus empty action ID |
| `AuditChain.CheckpointDeterminesChain` | src/master_agent/audit.py:728-768 | two accepted logs with one checkpoint and no separator before the payloads hold the same events, or exhibit a hash collision |
| `AuditReadings.SeparatorsMakeEventsAmbiguous` | src/master_agent/audit.py:728-768 | every accepted log with a separator inside any field of any event has another accepted reading with the same checkpoint and no collision, under every hash |
| `AuditReadings.UniqueExactlyWithoutBars` | src/master_agent/audit.py:728-768 | an accepted log is the only one with its checkpoint, collisions apart, exactly when no field of any event holds the separator |
| `AuditReadings.BarsCanBeRecorded` | src/master_agent/audit.py:141-164 | recording any event with a separator in a field gives an accepted log with another reading |
| `AuditReadings.DumpIsShaped` | src/master_agent/audit.py:134-140 | in the payload text `record` writes, strings are closed and bars and backslashes occur only in strings |
| `AuditReadings.RecordedChainsAreDetermined` | src/master_agent/audit.py:141-189 | two accepted logs of rows as `record` writes them, with any event types and JSON payloads, hold the same events under one checkpoint, or exhibit a collision |
| `AuditReadings.RunsWithOneCheckpoint` | src/master_agent/audit.py:122-189 | so two runs of `record` from new databases that end at one checkpoint recorded the same events, or two with one hash |
| `IdempotencyClaims.ActionLedger.ClaimAction` | src/master_agent/audit.py:347-437 | grants a fresh token only for an absent key or the same action after a failure, and otherwise reports conflict, result or progress unchanged |
| `IdempotencyClaims.ActionLedger.FinishAction` | src/master_agent/audit.py:439-542 | ends a reservation only for its own action and token; completing keeps the token, the other endings erase it |
| `IdempotencyClaims.ActionLedger.ResolveIndeterminate` | src/master_agent/audit.py:544-576 | completes an indeterminate row only if it still holds the expected result |
| `IdempotencyClaims.ActionLedger.SaveCompleted` | src/master_agent/audit.py:312-345 | inserts a completed row and never overwrites one |
| `IdempotencyClaims.ActionLedger.ClearCompleted` | src/master_agent/audit.py:667-688 | deletes the row of the key, or of the key and action |
| `IdempotencyClaims.RunKeepsInv` | src/master_agent/audit.py:347-688 | over every run the table says what the history of the key says |
| `IdempotencyClaims.GrantsAreSeparated` | src/master_agent/audit.py:347-437 | two grants of a key are separated by a failure or release under the earlier token, or by a clear |
| `IdempotencyClaims.TokensAreSpentOnce` | src/master_agent/audit.py:605-638 | each token is spent by at most one successful complete, fail, release or indeterminate |
| `IdempotencyClaims.ClosedKeysNeedClearing` | src/master_agent/audit.py:382-400 | after an indeterminate, completed, imported or resolved outcome the key is granted again only after a clear |
| `IdempotencyClaims.FingerprintsStay` | src/master_agent/audit.py:347-381 | while the key is not cleared its row keeps its action, and every other action's claim conflicts |
| `IdempotencyClaims.OutcomesAreReported` | src/master_agent/audit.py:382-437 | whatever happens to other keys and by other actions, a completed action answers later claims with its result, an uncertain one with its outcome, and a failed or released one with a new grant that carries its outcome |
| `IdempotencyClaims.UncertainIsResolvedExactly` | src/master_agent/audit.py:544-576 | an uncertain outcome is resolved exactly by a caller that names it |
| `IdempotencyClaims.ResolvedResultIsReported` | src/master_agent/audit.py:544-576 | a resolved result is what every later claim reports |
| `IdempotencyClaims.ImportedResultIsReported` | src/master_agent/audit.py:312-345 | an imported result is reported later if the key was free, and disturbs nothing if it was not |
| `IdempotencyClaims.GrantsAreHeld` | src/master_agent/audit.py:347-437 | from its grant until it is ended or cleared a reservation is reported as in progress, and exactly its own token can end it |
| `IdempotencyClaims.ClearedKeysAreGranted` | src/master_agent/audit.py:667-688 | a free key is granted under the next token; clearing frees the key, or its row of that action only |
| `IdempotencyClaims.OtherKeysAreUntouched` | src/master_agent/audit.py:347-688 | calls about other keys never change what is on file for a key |
| `RunCheckpoints.CheckpointTable.CheckpointRun` | src/master_agent/audit.py:191-285 | creates a run's row at sequence 0, or advances it by one for a caller naming its plan, bindings and present state; otherwise changes nothing |
| `RunCheckpoints.SavesFormOneLine` | src/master_agent/audit.py:213-275 | over any interleaving the saves of a run are numbered 0, 1, 2, ..., each expects the state before it, and plan, fingerprint and bindings never change |
| `RunCheckpoints.AdvancesAreSeparated` | src/master_agent/audit.py:248-257 | two advances from one state have a save that wrote that state again between them |
| `RunCheckpoints.StaleRequestsAreAcceptedExactly` | src/master_agent/audit.py:220-275 | a request that would have been saved is saved after any further requests exactly if the run is then in the state it expects |
| `RunCheckpoints.RecurringStateIsAccepted` | src/master_agent/audit.py:258-275 | a detour of two saves back to the expected state hides both from an older request |
| `RunCheckpoints.AnswersExactly` | src/master_agent/audit.py:203-285 | exactly which requests are malformed, find no row, differ from it or are saved, and what a saved one leaves |
| `RunCheckpoints.LastSaveIsRead` | src/master_agent/audit.py:213-310 | over any interleaving what is read for a run is the data of its last save, numbered by the saves before it |
| `SpecArchive.SpecTree.StageDeltas` | scripts/specs.py:267-309 | in a valid tree the staging checks refuse nothing and stage what each delta leaves |
| `SpecArchive.SpecTree.ApplyDeltas` | scripts/specs.py:328-349 | either all deltas are applied, or a save or write failed and every changed file has its former content saved |
| `SpecArchive.SpecTree.MoveChange` | scripts/specs.py:351-358 | moves the change into the archive and validates, saying how far it came |
| `SpecArchive.SpecTree.Restore` | scripts/specs.py:364-371 | restoring the saved contents in reverse gives back all documents |
| `SpecArchive.SpecTree.Transact` | scripts/specs.py:325-372 | the whole archived tree, or the tree as it was |
| `SpecArchive.SpecTree.ArchiveChange` | scripts/specs.py:211-373 | the change is archived exactly when the tree is valid, the change is verifying, no operation fails and the result is valid; otherwise nothing changed; it is refused exactly when one of the early checks or the copy aside fails, and a failed cleanup is reported exactly when it happened after archiving |
| `SpecArchive.AppliedAt` | scripts/specs.py:328-349 | after all deltas every destination holds what its own delta says |
| `ArchiveHistory.AppliedIsPointwise` | scripts/specs.py:328-349 | and no other file changed |
| `ArchiveHistory.ArchivingKeepsRules` | scripts/specs.py:487-714 | archiving a verifying change of a valid tree gives a valid tree exactly when each delta is newer than all archived ones of its requirement, or changes nothing |
| `ArchiveHistory.CommitsInOrder` | scripts/specs.py:259-373 | a change is archived exactly when the tree is valid, the change is verifying and in that order, no operation fails and the remaining checks pass before and after |
| `ArchiveHistory.ArchivedTreeTold` | scripts/specs.py:328-358 | the archived tree: the change moves with its files, closed and dated; the destination of each delta holds the file it names, or nothing after a removal; all else is as it was |
| `ArchiveHistory.CommittedChange` | scripts/specs.py:487-651 | what is archived was verifying, with all tasks done, well-formed deltas, and added only what was nowhere and changed or removed only what was there |
| `ArchiveHistory.CommittedTree` | scripts/specs.py:487-714 | afterwards documents are named after their requirement, and no requirement, change or issue is there twice |
| `ArchiveHistory.UnreadableMetadataIsRolledBack` | scripts/specs.py:311-358 | a change whose title, destination or source TOML cannot hold unescaped is never archived by a validation that reads what was rendered |
| `ArchiveHistory.ValidateLatest` | scripts/specs.py:653-714 | collects the last record of each requirement and accepts exactly if all match the documents |
| `ArchiveHistory.ValidatorChecksHistory` | scripts/specs.py:653-714 | the loop over sorted changes checks exactly that the largest issue touching each requirement matches |
| `ArchiveHistory.CurrentIsReplay` | scripts/specs.py:653-714 | in a valid tree replaying all archived deltas in order gives the current place and content of every touched requirement; if the last delta removed it, no document declares it and its place is empty |
| `ChangeToml.EscapeIsOnePass` | scripts/specs.py:1342-1343 | the two chained replacements equal one escaping pass |
| `ChangeToml.EscapedReadsBack` | scripts/specs.py:1342-1343 | a basic string reads back an escaped text, and fails exactly if the text holds a character TOML does not allow |
| `ChangeToml.LinesReadBack` | scripts/specs.py:1316-1339 | reading rendered statements gives the statements, or nothing if one is unreadable |
| `ChangeToml.LoadedIsLoadable` | scripts/specs.py:797-931 | metadata the loader returns meets the conditions of the round trip |
| `ChangeToml.SomeFileLoads` | scripts/specs.py:797-871 | whatever meets the conditions of the round trip is what some parsed file loads to |
| `ChangeToml.LoadsExactly` | scripts/specs.py:797-931 | a file loads to a change exactly if it has the keys of that change with its values and no others, a table with the keys of each delta in order, and values the loader admits |
| `ChangeToml.RenderReadsBack` | scripts/specs.py:1316-1343 | rendered metadata reads back as itself exactly when no title, destination or source holds a control character other than a tab, or DEL; otherwise it cannot be read |
| `ChangeToml.DelIsNotEscaped` | scripts/specs.py:1099-1105 | metadata with DEL that some parsed file loads to and that cannot be read once rendered |
| `GitTree.TreeEntries` | scripts/semantic_router.py:749-788 | the cursor loop is the parsing function |
| `GitTree.ParsingIsExact` | scripts/semantic_router.py:749-788 | a payload parses to a list exactly when the list has entries as Git writes them, uniquely named and within the limit, and serializes to the payload byte for byte, for any ID length |
| `GitTree.BlobAtPath` | scripts/semantic_router.py:709-746 | the loop over components is the recursive walk |
| `GitTree.WalkIsExact` | scripts/semantic_router.py:709-746 | the walk returns a file exactly when each tree on the path is the serialization of such a list holding the next component, down to a regular or executable file |
| `SourceOfTruth.DependencyAncestors` | src/master_agent/canonical.py:184-199 | the worklist ends, cycles included, with exactly the transitive dependencies |
| `SourceOfTruth.SelectRound` | src/master_agent/canonical.py:350-369 | one selector segment over all current items |
| `SourceOfTruth.SelectValues` | src/master_agent/canonical.py:348-369 | all segments in order, stopping early on nothing |
| `SourceOfTruth.SelectedAreReached` | src/master_agent/canonical.py:348-369 | a value is selected exactly if one path down the parameters reaches it |
| `SourceOfTruth.StripCutsBlanks` | src/master_agent/canonical.py:384-387 | a governed value is compared without the blanks at both ends, and nothing else is cut off |
| `SourceOfTruth.ParameterDigests` | src/master_agent/canonical.py:329-345 | the digests of exactly the governed values |
| `SourceOfTruth.MatchingWrites` | src/master_agent/canonical.py:139-168 | exactly the canonical writes whose digests are the projection's |
| `SourceOfTruth.CheckRule` | src/master_agent/canonical.py:119-179 | accepts exactly if the projection is not governed, only read, or has one governed value and a matching canonical write among its dependencies, and otherwise gives the first of these reasons against it |
| `SourceOfTruth.Validate` | src/master_agent/canonical.py:111-181 | accepts exactly if every rule does, and otherwise gives the reason of the first rule that does not |
| `SourceOfTruth.AcceptedProjectionFollowsItsSource` | src/master_agent/canonical.py:111-181 | an accepted projection that writes has an approved capability and follows, in every order that respects dependencies, a write of the canonical resource with the same single value |
| `SourceOfTruth.DependencyIsExactlyOrder` | src/master_agent/canonical.py:163-179 | for a plan that can run, acceptance is the same as a matching write preceding it in every execution order |
| `AdvisoryBudget.BudgetStore.ReserveAttempt` | src/master_agent/advisory_budget.py:106-193 | adds one attempt to one verified row within the limits, and otherwise leaves the table untouched |
| `AdvisoryBudget.AdvisorySession.ReserveRole` | src/master_agent/advisory.py:706-725 | asks the store, or counts in memory against the same limits |
| `AdvisoryBudget.AdvisorySession.Delegate` | src/master_agent/advisory.py:627-704 | denies before reserving, reserves before calling, and calls at most once |
| `AdvisoryBudget.ReserveAddsOne` | src/master_agent/advisory_budget.py:106-187 | a granted reservation adds exactly one to exactly one counter, a refused one nothing |
| `AdvisoryBudget.BudgetsHold` | src/master_agent/advisory_budget.py:106-187 | over any interleaving, refusals included, the stored counters equal the reservations whose callers were told they are allowed, a goal gets at most three research calls and one review call, and the table at most 4096 goals |
| `AdvisoryBudget.DelegationsExactly` | src/master_agent/advisory.py:627-725 | in every reachable state a delegation is denied exactly for its own faults, granted exactly if its attempts can be counted and fewer than three, or one, were granted, the worker runs exactly then, and only its valid report completes it |
| `AdvisoryBudget.CountersAreStored` | src/master_agent/advisory.py:706-725 | a session then shows the stored counters, and after a denial or without a usable row the ones it had |
| `AdvisoryBudget.MemoryIsFreshStore` | src/master_agent/advisory.py:706-725 | one in-memory session gives the same outcomes as a durable store that was fresh at its start |
| `Sanitizer.SanitizeValue` | src/master_agent/advisory.py:869-901 | the recursion with its shared counter is the threaded function |
| `Sanitizer.SanitizeIsExact` | src/master_agent/advisory.py:869-901 | accepts exactly the permitted values whose nodes fit, ends the counter at the node count, and only turns sequences into tuples |
| `Sanitizer.CopyIsFaithful` | src/master_agent/advisory.py:1040-1045 | thawing the copy gives the payload with lists, and the copy is as permitted and as large |
| `Sanitizer.CheckPayload` | src/master_agent/advisory.py:854-866 | the whole check, with a fresh counter |
| `Sanitizer.PayloadIsAccepted` | src/master_agent/advisory.py:854-866 | a payload passes exactly if it is a permitted mapping of at most 256 nodes within the byte limit |
| `Sanitizer.SanitizingIsIdempotent` | src/master_agent/advisory.py:854-901 | what passed once passes again unchanged |
| `Negation.ScanScope` | src/master_agent/capability_routing.py:304-324 | the inner loop finds exactly the terms one negator covers |
| `Negation.NegatedTerms` | src/master_agent/capability_routing.py:293-324 | the loops find exactly the terms that the declarative scope of some negator covers |
| `Negation.NextOperationIsNegated` | src/master_agent/capability_routing.py:299-320 | an operation right after a negator is negated |
| `Negation.ScopesEnd` | src/master_agent/capability_routing.py:304-311 | no scope reaches past a breaker, a mark that is no comma, or a comma after an operation |
| `Negation.ScopesAreShort` | src/master_agent/capability_routing.py:312-314 | a scope holds at most twelve words |
| `Negation.PlainWordsAreNegatedAlone` | src/master_agent/capability_routing.py:315-324 | a word that is no operation is negated exactly if it is the first of a scope without operations that is no modifier |
| `Routing.FindConfusable` | src/master_agent/capability_routing.py:327-340 | raises exactly if two cards with different IDs share a skeleton |
| `Routing.ScoreCards` | src/master_agent/capability_routing.py:162-188 | the eligible cards with their points, in catalog order |
| `Routing.Resolve` | src/master_agent/capability_routing.py:143-196 | the limit, the empty prompt and the selection, over the policy-permitted cards and the negated terms |
| `Routing.EligibleExactly` | src/master_agent/capability_routing.py:164-188 | a card is eligible exactly if its risk fits, no negative phrase occurs, no intent term is negated, and a term or phrase is in the prompt |
| `Routing.NormalizingKeepsTokens` | src/master_agent/capability_routing.py:278-287 | normalizing keeps the tokens of a text, so doing it again changes nothing |
| `Routing.ScoreIsWorth` | src/master_agent/capability_routing.py:163-187 | a card that was asked for and that nothing opposes gets one point for each distinct term of its intents in the prompt and four for each intent whose phrase occurs in it; the others are skipped, or raise |
| `Routing.TokenlessIntentsMatchAnything` | src/master_agent/capability_routing.py:167-187 | a card no filter excludes is eligible exactly if it shares a term or a nonempty phrase with the prompt, or one of its intents has no letter or digit |
| `Routing.MatchesEveryPromptExactly` | src/master_agent/capability_routing.py:157-187 | a card whose phrases leave a letter or digit unused is eligible for every prompt its filters let through exactly if one of its intents has no letter or digit |
| `Routing.SingleLettersMatchEveryPrompt` | src/master_agent/capability_routing.py:182-187 | the unused letter is needed: a card with every letter and digit as an intent matches every such prompt too |
| `Routing.DashMatchesEveryPrompt` | src/master_agent/capability_routing.py:182-187 | the card with the single intent of a dash gets four points on every prompt its risk fits |
| `Routing.SortRanks` | src/master_agent/capability_routing.py:189 | sorting ranks the items and keeps them |
| `Routing.RankedMeans` | src/master_agent/capability_routing.py:189 | in a ranked list points do not grow, and equal ones are in dictionary order of ID and then version |
| `Routing.LexIsDictionaryOrder` | src/master_agent/capability_routing.py:189 | texts compare by the first character that differs, a proper prefix first |
| `Routing.SelectedAreTheBest` | src/master_agent/capability_routing.py:189-192 | the selection is a prefix, up to the limit, of a ranking of exactly the permitted cards that earn points, by the points they are worth |
| `Routing.ChoosesExactly` | src/master_agent/capability_routing.py:157-193 | nothing is selected exactly if two permitted cards with different IDs look alike, or one that was asked for cannot be read, or none earns points, in this order |
| `Routing.RankedAreEligible` | src/master_agent/capability_routing.py:157-188 | every ranked card is in the catalog, permitted and eligible |
| `Routing.CatalogOrderDoesNotMatter` | src/master_agent/capability_routing.py:143-196 | with distinct (ID, version) pairs the outcome is independent of the catalog order |

## Left out

- Timestamps, error texts, progress messages, `get`, `list_tasks`, `status` and rendered Markdown: no modelled decision depends on them.
- SQLite, files, descriptors, locks and their failures: each transaction, file replacement and directory move is one atomic step; only the archive model lets such steps fail.
- Failures of JSON encoding before a result is saved: a step whose result cannot be encoded stays running, as after a crash.
- HTTP, TLS, redirects, Git commands and provider fields other than those named in a row: parameters or outcomes of a call.
- `develop` and its `git.prepare` step: publication starts from a prepared task.
- Publication.PerformKeepsInv: the connection steps nested in the pull request and comment steps are not part of the publication model; they are proved in the review model.
- PublicationWorkflow.Workflows.PublishWrites: leaves out the same connection steps; a provider call here is one action.
- Reviews.OneTargetPerProvider: covers the provider calls of reviews; those a publication makes check the same saved connection but are not followed here.
- ReviewOutcome.ReviewsExactly: supposes that the process does not die in any step; for one that does, `DyingLeavesTheTask` and `Reviews.ReusedResultsMatchTheirSource` say what is left.
- PublicationOutcome.PublishesExactly: the sources of a run are given with their names, which are not those of the writes; the connection steps nested in the provider writes and the `git.prepare` step are not followed.
- ReviewWorkflow.Workflows.Run: the report is given by the caller and not assembled from the steps.
- Publication.PushesWereChecked: supposes, as the code does, that the worktree does not change between the gate and the push.
- TaskRuns.WritesApplyAtMostOnce: supposes that a failure reported as definite had no effect, which is what the `uncertain` flag of the transport stands for.
- `run_checkpoint`, `idempotency_outcome` and `completed_result`: single-row reads.
- AuditChain.AuditLog.constructor: models a database without events; taking over legacy rows and schema upgrades are not modelled.
- Rollback operations that fail themselves, interrupts (which bypass the rollback), and empty directories a rollback may leave behind.
- SpecArchive.SpecTree.ArchiveChange: interrupts while files are being written are not modelled; section, reference, heading and size checks of the validator are one predicate `rest`; `updated` comes from the caller.
- ChangeToml.DelIsNotEscaped: that DEL can be written in a file is the `\u` escape of TOML, which the reader here does not read; the lemma starts from the parsed file.
- ChangeToml.RenderReadsBack: the reader covers the statements the renderer writes and the short escapes of basic strings, not comments, other spacing or `\u` escapes; patterns, dates and relations between fields are one predicate `rules`, whose consequence that IDs and dates need no escaping is a condition.
- GitTree.TreeEntries: reading and hashing objects is the map of verified objects.
- `SourceOfTruthRegistry.from_toml`, `CapabilityCard` validation and `CapabilitySession`: branch-by-branch checks and two counters.
- LookBeforePost.RepeatsLeaveOne: the generator is modelled by the items it would deliver before it ends or fails, so a call that finds its item early here still reads the later pages.
- LookBeforePost.Scan: numeric IDs given as text are ASCII digits here.
- LookBeforePost.CreatedPullRequestIsFound: an honest Cloud server reports the repository name as it was asked for.
- AdvisoryBudget.BudgetsHold: rows are changed only through the store; the HMAC is a function and its unforgeability is not used.
- Routing.Resolve: Unicode normalization, casefolding and the skeleton of a name are functions; the digests of the decision are not modelled.
- Sanitizer.PayloadIsAccepted: the length of the JSON text, the secret patterns and the forbidden key parts are functions.
