# Verified model of the campaign control plane

This project models, in Dafny 4.11, the parts of the control plane where a mistake is expensive and a test
is unlikely to meet it: protocols that must survive crashes and concurrent writers, schedulers and limiters
whose promises are about whole runs, graph walks over graphs that may be cyclic or incomplete, and the rules
by which evidence is chained, bounded and combined. `dafny verify dfyconfig.toml` checks everything.

| file | models |
|---|---|
| `Submission.dfy`, `SubmissionReview.dfy` | direct report submission: attempt, post, outcome, with reviewers and other writers around it; what reviewing changes |
| `ApiOutbox.dfy`, `OutboxJobs.dfy`, `BrowserOutbox.dfy`, `BrowserRetries.dfy` | the request/completion outbox and its two views, the jobs behind it, and the browser-flow protocol that writes it |
| `Breaker.dfy`, `BreakerRetries.dfy` | the operator reset of the circuit breaker across the campaign log and the observation store |
| `Batch.dfy`, `BatchRecords.dfy`, `BatchCalls.dfy` | the batch scheduler with launch, cancellation and concurrent reconcilers; what its records say and what one call does |
| `RateLimiter.dfy`, `RateLimiterStores.dfy` | the in-process limiter, the Redis script, that they are the same limiter, and what their stores hold |
| `Reachability.dfy`, `EvidenceChain.dfy`, `ObservationGraph.dfy`, `Lineage.dfy`, `FindingClusters.dfy` | graph loading, ancestry, lineage worklists and clustering, against one definition of reachability |
| `ScanAccounting.dfy`, `ScanCredit.dfy` | which completed scans may represent a job, on top of the lineage verdicts, and that no report is lost in the accounting; the exact condition for credit |
| `CampaignAudit.dfy`, `DecisionAudit.dfy`, `AuditRecords.dfy` | the two hash chains and what is written to and left out of them |
| `Incidents.dfy`, `IncidentFates.dfy` | the bounded incident history and what becomes of each item |
| `VersionRange.dfy`, `VersionText.dfy`, `AdvisoryCatalog.dfy`, `AdvisoryConsensus.dfy`, `AdvisoryMeaning.dfy` | affected version ranges from the characters up, catalogs, and agreement between sources |
| `Wrappers.dfy`, `VersionedLog.dfy`, `StableSort.dfy`, `TextOrder.dfy`, `Whitespace.dfy`, `Arithmetic.dfy` | optional values, the compare-and-set document, stable sorting, string order, stripping, set sizes |

## How to read it

The protocols are step relations. A world holds the stored document with its version, the outside (remote
reports, jobs, observations) and one program counter per running call; a label is one atomic step of one
call, of another writer, or a crash; a run is any sequence of enabled labels. A call that has read the
document keeps the snapshot it read, and its save succeeds only if the version has not moved, so every
interleaving of reads and writes is covered. Main results quantify over all runs, or over all worlds that
satisfy an invariant which every step is proved to keep. Where the code is a loop over data, the loop is a
method whose contract is a declarative statement about the result, or equates it with a function whose
properties are proved as lemmas.

Assumptions about what lies outside these files: a save with an expected version is one transaction
(`storage_core.py`, `save_campaign`); event logs only grow; `enqueue` with a dedupe key already in use
returns the existing job, the check being unique per campaign and kind (`jobqueue.py`); SHA-256 has no
collisions and a digest is never empty; request identifiers are fresh. Writers that are not the subject of a
protocol are single steps, which loses nothing under compare-and-set.

## What the model found

*Report submission is not at most once.* The submission status counts only submissions that come after the
latest approval (`submission_state.py`), and the duplicate-approval check compares the reviewer as well. A
second reviewer's approval of a report that was already submitted therefore makes it ready again, and the
next call posts it a second time. `ResubmissionExample` is that run; `SentAgainExactlyWhenReapproved` says
that an undisturbed call is accepted again if and only if submission is switched on, every attempt is
resolved, a current approval is newer than the last submission, and the report can be composed (one confirmed
finding with an impact, a verified program handle, readable text); `AtMostOnceSubmission` is the guarantee for
all runs without such an approval.

*A breaker can stay open although its reset was written and recorded as completed.* The time of a reset is
taken before the breaker is read. If the opening it then meets is later than that time, the reset sorts before
it: `ResetClosesExactly` gives the exact condition. An open breaker is not opened again, so this takes a second
reset in flight, or clocks that disagree. `LateResetExample` is the run: two calls, the second closes the
breaker, it is opened anew, and the first call answers that opening with an older time; both calls return, and
the breaker is open. `LoneResetCloses` shows that with one clock and no other reset written it cannot happen.

*Racing planners break the decision chain.* Decisions are sealed without compare-and-set, so two planners can
take the same link. The planner lease (`planner_lock.py`) does not exclude that: it is best effort, expires,
and does nothing without Redis, and starting a campaign (`main.py:1306`) calls the planner without it.
`RacingSealsBreakTheChain` shows that the chain is then invalid, wherever the decisions are listed and whatever
else is added. `OnlyTheCurrentLinkExtends` is the exact condition: a further decision keeps a valid chain valid
if and only if it was sealed with the current link and the verifier can confirm its signature. The campaign
chain is written under compare-and-set and has no such case (`RacingWritersKeepTheChain`), but its legacy prefix
is unprotected (`LegacyIsNotCovered`).

## Model

| member | source | states |
|---|---|---|
| Submission.StepKeepsInv | backend/app/hackerone_api.py:1989-2183 | every step of every caller, reviewer or crash keeps the log in order: attempts serialized by outcomes, outcomes founded on what was really sent, success and local submission written together |
| Submission.AtMostOnceSubmission | backend/app/hackerone_api.py:2013-2177 | on every run in which no submitted report is approved again, the remote side accepts at most one report per artifact |
| Submission.AcceptedReportsAreSeparated | backend/app/hackerone_api.py:2013-2177 | two accepted reports for one artifact are separated by the recorded success of the first and a later approval, both before the second attempt |
| Submission.SuccessIsRecorded | backend/app/hackerone_api.py:1896-1913 | an accepted report has its success in the log before the artifact can be attempted again |
| Submission.SendNeedsRecordedOutcomes | backend/app/hackerone_api.py:2013-2060 | nothing is sent before every earlier report for the artifact has its true outcome recorded |
| Submission.AbandonedBlocksForever | backend/app/hackerone_api.py:1896-1913 | an attempt whose call is gone without an outcome blocks all later posts for that artifact on every run |
| Submission.MayAttemptExactly | backend/app/submission_state.py:57-111 | the checks on the latest events amount to: every attempt resolved, a matching approval newer than the last submission, and a report that can be composed |
| Submission.SentAgainExactlyWhenReapproved | backend/app/hackerone_api.py:2007-2109 | an undisturbed call is accepted once more if and only if submission is switched on, every attempt is resolved, a current approval is newer than the last submission and the report can be composed; otherwise nothing is sent |
| Submission.ResubmissionExample | backend/app/report_approval.py:99-142 | the run in which a second reviewer's approval leads to a second accepted report |
| Submission.UndisturbedCallRecordsOutcome | backend/app/hackerone_api.py:2062-2177 | a call that passes the checks and is left alone sends one report and records its acceptance |
| Submission.RefusedCallMayBeRepeated | backend/app/hackerone_api.py:2111-2132 | a call left alone and answered by a client error leaves exactly its attempt and the rejection in the log, one refused report, every attempt resolved, and the artifact ready to be attempted again |
| Submission.LostCallBlocks | backend/app/hackerone_api.py:2133-2157 | a call left alone whose answer is lost or unusable leaves its attempt open in the log, so that the artifact may not be attempted, whether the report was accepted or not |
| SubmissionReview.StatusExactly | backend/app/submission_state.py:57-111 | draft, ready and submitted, each said of the latest review and the latest submission in the log |
| SubmissionReview.ApprovalExactly | backend/app/report_approval.py:99-142 | approved exactly when the latest review is an approval of these bytes and this state of the campaign, stale exactly when it approves another |
| SubmissionReview.ApprovingApproves | backend/app/submission_api.py:104-132 | approving a report of a campaign with confirmed findings leaves it approved, by at most one event; without findings nothing is written |
| SubmissionReview.ApprovalIsWrittenExactly | backend/app/submission_api.py:112-132 | an approval is written unless the current one is this reviewer's |
| SubmissionReview.RevokingEndsApproval | backend/app/submission_api.py:135-158 | after a revocation the report is neither approved nor stale and cannot be sent; a second one writes nothing |
| SubmissionReview.MarkingSubmits | backend/app/submission_api.py:161-188 | a report is marked submitted exactly when it is ready, and shows that platform then |
| SubmissionReview.EditingMakesStale | backend/app/report_approval.py:29-51 | changed findings or scope make every current approval stale |
| SubmissionReview.OvertakenOutcomeBlocks | backend/app/hackerone_api.py:2159-2177 | a call overtaken while saving its outcome writes nothing, and its attempt blocks the artifact on every run from there |
| ApiOutbox.LatestPending | backend/app/api_outbox.py:25-51 | the reverse scan returns the last event that is a request without a completion under the identity, and nothing only if there is none |
| ApiOutbox.PendingExactly | backend/app/api_outbox.py:58-121 | one intent per key, namely the first request of every key that is requested and not completed |
| ApiOutbox.CompletionClears | backend/app/api_outbox.py:95-121 | a completion event removes the one intent it names and keeps the order of the others |
| ApiOutbox.RequestAdds | backend/app/api_outbox.py:58-92 | a request adds an intent exactly when its key was neither requested nor completed before |
| ApiOutbox.OtherEventChangesNothing | backend/app/api_outbox.py:58-121 | no other event changes the pending intents |
| ApiOutbox.PendingOutboxIntents | backend/app/api_outbox.py:173-245 | the recovery view describes exactly the pending intents, in log order |
| ApiOutbox.OutboxSnapshot | backend/app/api_outbox.py:124-169 | fails exactly outside 1..500; otherwise total, counts per kind that add up, least non-empty time, sorted and truncated list, all of the same pending intents |
| ApiOutbox.ViewsAgree | backend/app/api_outbox.py:124-245 | both views show the same pending set with the same times |
| ApiOutbox.TimesAreFirstRequests | backend/app/api_outbox.py:191-209 | a described intent carries the time of the first request for its key |
| ApiOutbox.LocalRepairClears | backend/app/outbox_recovery.py:75-115 | which intents local repair can complete, and that its event clears that intent and no other |
| OutboxJobs.RecoveryFindsTheJob | backend/app/api_outbox.py:200-245 | recovery looks for the job under exactly the kind and key by which the endpoint of the request enqueues it |
| OutboxJobs.JobsTellRequests | backend/app/main.py:1842 | two requests of one kind never share a job key, as long as no platform name has a colon |
| OutboxJobs.KeysExactly | backend/app/api_outbox.py:58-121 | which event types ask and complete for each kind, and under which identity they meet |
| OutboxJobs.RetryContinuesTheLast | backend/app/api_outbox.py:25-51 | a retry continues with the last request under its identity that no event completes |
| OutboxJobs.ItemsInOrder | backend/app/api_outbox.py:155-169 | listed items are ordered by time, those without one last, and by the name of their kind |
| BrowserOutbox.StepKeepsInv | backend/app/browser.py:342-412 | every step keeps requests unique and serialized per flow, completions unique and founded, and jobs founded on requests |
| BrowserOutbox.AtMostOnePending | backend/app/browser.py:353-381 | in every reachable world a flow has at most one pending request |
| BrowserOutbox.JobsAndCompletionsAreOwned | backend/app/browser.py:185-228 | every job's dedupe key names a committed request for its flow; a request has one request event and at most one completion, naming its job |
| BrowserOutbox.RetryReusesRequest | backend/app/browser.py:353-381 | after a crash at any point, a retry goes on with the committed request and writes no second one |
| BrowserOutbox.UndisturbedCallReturns | backend/app/browser.py:342-412 | whatever crashed before, a call left alone returns the job of its flow's pending request, or of a new one, adding at most that job |
| BrowserOutbox.EnqueueReturnsTheJob | backend/app/browser.py:398-404 | the queue never refuses a call for a reused key, and a retry gets the job its request already owns |
| BrowserOutbox.ReturnMeansRecorded | backend/app/browser.py:185-228 | a call returns a job only when the completion naming it is on record |
| BrowserOutbox.RetryFindsOpenRequest | backend/app/api_outbox.py:25-51 | in an orderly log the pending id of a flow is its one open request |
| BrowserOutbox.OutboxListsWhatRetryFinds | backend/app/api_outbox.py:25-51 | on logs the protocol produces, the outbox lists a browser request exactly when a retry would find it |
| BrowserOutbox.RepairKeepsInv | backend/app/main.py:693-748 | local repair of any number of intents in one save keeps the invariant |
| BrowserRetries.RequestIsWritten | backend/app/browser.py:359-381 | a flow without a pending request gets one under the new id, stamped with the time of the call, and nothing else |
| BrowserRetries.CompletionIsWritten | backend/app/browser.py:205-222 | the outcome names request, flow and job, stamped with the time of the save |
| BrowserRetries.ThirdLostSaveGivesUp | backend/app/browser.py:185-228 | a call that loses three saves ends with its job in the queue and its request open, having written nothing to the log |
| BrowserRetries.ThirdSaveMaySucceed | backend/app/browser.py:185-228 | after two lost saves the third still records the outcome |
| BrowserRetries.StoppedCampaignQueuesNothing | backend/app/browser.py:346-389 | a stopped campaign refuses both a new call and one that has its request; a resumed one does not |
| Breaker.StepKeepsInv | backend/app/campaign_control.py:182-230 | every step of every call, of the orchestrator or a crash keeps the invariant across both stores |
| Breaker.ResetLifecycle | backend/app/campaign_control.py:93-124 | in every interleaving a reset id is requested at most once, completed at most once, and requested first |
| Breaker.ResetNeedsRequest | backend/app/campaign_control.py:204-214 | the breaker is reset only by a call whose request is on record; that request and the reset each name a recorded opening |
| Breaker.ClosedBreakerCompletesPending | backend/app/campaign_control.py:192-230 | with the breaker closed and a request pending, the next undisturbed call completes that id and writes no reset |
| Breaker.OpenBreakerIsReset | backend/app/campaign_control.py:182-230 | with the breaker open, the next undisturbed call resets the opening it finds, under the pending request if a crash left one, and writes only what the log lacks |
| Breaker.LateResetExample | backend/app/campaign_control.py:182-230 | the run in which a reset with an older time answers a later opening: it is written, the completion recorded, both calls return, and the breaker is open |
| Breaker.LoneResetCloses | backend/app/circuit_breaker.py:35-73 | whatever else happens between the time a call takes and its write, if no other reset is written and the clock agrees, the breaker is closed by it |
| Breaker.ResetClosesExactly | backend/app/circuit_breaker.py:17-75 | a reset closes the breaker if and only if it is new and its time is not earlier than that of the opening it meets |
| Breaker.LatestPending | backend/app/campaign_control.py:76-90 | returns a requested id without completion, and none only if all are completed |
| Breaker.PendingIsLatest | backend/app/campaign_control.py:76-90 | of several open requests the scan returns the last in the log |
| BreakerRetries.ThirdLostRequestGivesUp | backend/app/campaign_control.py:93-124 | a call that loses three saves of its request ends without touching the breaker |
| BreakerRetries.ThirdTryMaySucceed | backend/app/campaign_control.py:93-124 | after two lost saves the third still records the request |
| BreakerRetries.ThirdLostCompletionGivesUp | backend/app/campaign_control.py:93-124 | a call that loses three saves of its completion ends with the reset in place and its request open |
| BreakerRetries.ClosedMeanwhile | backend/app/campaign_control.py:204-230 | a call that finds the breaker closed by another reset writes none and completes its request with the time of the one it found |
| Batch.ReconcilePass | backend/app/hackerone_batch.py:187-278 | one pass saves exactly when a member finishes, is tried or the stored state is off, and saves the pointwise transition of all members |
| Batch.FinishMembers | backend/app/hackerone_batch.py:200-207 | the first loop moves exactly the running members that have finished |
| Batch.StartNext | backend/app/hackerone_batch.py:210-238 | sequential mode tries the first ready member only, when none runs and its retry is due |
| Batch.StartEach | backend/app/hackerone_batch.py:239-258 | parallel mode tries exactly the ready members whose retry is due |
| Batch.StartedInTurnAndConfirmed | backend/app/hackerone_batch.py:134-159 | over any history, a ready member later seen running or done was started by one committed pass in which the remote program was confirmed and the campaign seen running or completed, and in sequential mode after all members before it had finished |
| Batch.DoneIsEarned | backend/app/hackerone_batch.py:107-131 | over any history, a member gets done only in a committed pass that saw its campaign completed, or its jobs over and none failed |
| Batch.StatusIsEarned | backend/app/hackerone_batch.py:107-159 | over any history, a member becomes done, cancelled, blocked or under review only in a committed pass that saw the cause of just that status, or by cancellation |
| Batch.StatusMovesExactly | backend/app/hackerone_batch.py:107-159 | in one pass a running member is cancelled exactly when its campaign is, blocked exactly when the campaign is missing or failed, under review exactly when the jobs are over and some failed; likewise a ready member that is tried |
| BatchRecords.ReasonIsTheExplanation | backend/app/hackerone_batch.py:38-159 | the reason on record is the text behind the status, cut to 500 characters |
| Batch.OneRunsAtATime | backend/app/hackerone_batch.py:210-238 | in every reachable world at most one member of a sequential batch runs |
| Batch.HandedOn | backend/app/hackerone_batch.py:210-238 | in sequential mode only the member a pass started is newly running; all members before it have finished, those after it are ready and untouched |
| Batch.RecordsInOrder | backend/app/hackerone_batch.py:187-278 | every committed record has the sequential shape, the state of its members or cancelled, bounded retries and the summary of its members |
| Batch.ShapeIsPrefix | backend/app/hackerone_batch.py:210-224 | the shape means a non-ready prefix whose last member alone may run, then ready members |
| Batch.SummarySums | backend/app/hackerone_batch.py:162-175 | the summary counts add up to the number of members |
| BatchRecords.SummaryCounts | backend/app/hackerone_batch.py:162-175 | in every reachable world each summary number is the number of members with that status |
| BatchRecords.StateSaysWhatMembersDo | backend/app/hackerone_batch.py:178-184 | in every reachable world a batch is running exactly when a member runs, queued exactly when none runs and some have not finished, completed or cancelled otherwise |
| Batch.OneActiveBatch | backend/app/hackerone_api.py:1609-1628 | under the launch lock at most one batch is active in any reachable world, although only the newest 200 are looked at |
| BatchCalls.UndisturbedLaunch | backend/app/hackerone_api.py:1628-1770 | with no batch active a launch adds one fresh batch, every member ready and untried, and gives the lock back |
| BatchCalls.RefusedLaunch | backend/app/hackerone_api.py:1609-1640 | with a batch active among the newest two hundred a launch changes nothing |
| BatchCalls.UndisturbedPass | backend/app/hackerone_batch.py:187-278 | a pass left alone is saved exactly when it changes something, one version on |
| BatchCalls.OvertakenSaveIsDropped | backend/app/hackerone_batch.py:267-278 | an overtaken save of any kind changes no record |
| BatchRecords.CancellingLeaves | backend/app/hackerone_api.py:1816-1843 | cancelling keeps what is done or cancelled and cancels the rest, each explained by the failure to stop it, if any |
| Batch.SevenDeferrals | backend/app/hackerone_batch.py:38-55 | over any history, a member is deferred at most seven times between two lost start races; the eighth unavailable answer sends it to review, and the stored count is the number of deferrals |
| Batch.DeferralLadder | backend/app/hackerone_batch.py:38-55 | one unavailable answer: a delay of 15 to 300 seconds, never less than the one before, or the forced review |
| Batch.DelaysNeverShrink | backend/app/hackerone_batch.py:48-51 | delays lie in 15..300 and never shrink |
| BatchRecords.DelayDoubles | backend/app/hackerone_batch.py:48-51 | the first delay is 15 seconds and each further one twice the last, up to 300 |
| Batch.PassProgress | backend/app/hackerone_batch.py:198-265 | a committed pass lowers the measure unless a start conflicted, and each conflict raises it by at most seven |
| Batch.CommitsAreBounded | backend/app/hackerone_batch.py:187-278 | from its launch on, a batch of n members commits at most 9n passes without a start conflict plus seven per conflict, one version each |
| BatchRecords.NinePassesEach | backend/app/hackerone_batch.py:187-278 | where no start race is lost, a batch commits at most nine passes per member |
| Batch.RunIsHistory | backend/app/hackerone_batch.py:267-278 | whatever the callers do, a record moves by whole passes, cancellations and learning syncs, one per version |
| Batch.TerminalMembersStay | backend/app/hackerone_api.py:1816-1843 | a finished member never changes, except that cancelling turns a review or block into a cancellation |
| RateLimiter.FixedWindowLimiter.Check | backend/app/api_rate_limit.py:77-93 | the answer and the new dictionary of one call |
| RateLimiter.FixedWindowLimiter.PruneEntries | backend/app/api_rate_limit.py:69-75 | pruning keeps exactly the current window and reports whether there is room |
| RateLimiter.RedisFixedWindowLimiter.Check | backend/app/api_rate_limit.py:138-165 | the answer and the new keys of one call of the script |
| RateLimiter.MemoryStep | backend/app/api_rate_limit.py:69-93 | the dictionary answers as the history of calls prescribes |
| RateLimiter.RedisStep | backend/app/api_rate_limit.py:97-165 | the script answers as the history of calls prescribes |
| RateLimiter.BackendsAgree | backend/app/api_rate_limit.py:69-165 | on every run with nondecreasing times both limiters give every call the same answer |
| RateLimiter.FirstRequestsAreAllowed | backend/app/api_rate_limit.py:77-93 | counted in the answers themselves: a key is granted exactly the first calls of a window that meet no capacity error, up to the quota |
| RateLimiter.AtMostTwiceTheQuota | backend/app/api_rate_limit.py:77-93 | at most twice the quota in any span as long as a window |
| RateLimiter.CapacityKept | backend/app/api_rate_limit.py:69-75 | the tracked keys never exceed the limit |
| RateLimiter.CapacityOverRuns | backend/app/api_rate_limit.py:69-117 | on every run neither the dictionary nor the Redis sorted set exceeds the limit, and the sorted set holds exactly the clients answered in the window of the last call |
| RateLimiterStores.CountersAreCurrent | backend/app/api_rate_limit.py:97-117 | on every run Redis holds one counter for each client answered in the window of the last call and none of an earlier window, hence never more than the limit |
| RateLimiterStores.SmallestLimiter | backend/app/api_rate_limit.py:69-93 | one client, one request, one second: the second request waits, another client finds no room, and both are back with the next second |
| RateLimiter.WaitingEndsInLaterWindow | backend/app/api_rate_limit.py:77-93 | waiting as told always ends in a strictly later window |
| EvidenceChain.AncestryIntegrity | backend/app/evidence_chain.py:39-64 | ancestors are exactly the ids reached by one or more parent steps, dangling ids exactly the missing ones, and a cycle is reported exactly when one is reachable |
| EvidenceChain.AncestryWalk.Visit | backend/app/evidence_chain.py:48-62 | the recursive visit terminates on every graph and records soundly and completely what lies ahead of the path |
| EvidenceChain.PathGrows | backend/app/evidence_chain.py:48-62 | the measure behind termination, although the path leaves out the current node |
| ObservationGraph.FromRecords | backend/app/observation_graph.py:65-90 | loading succeeds exactly for consistent records whose parents can be ordered before them |
| ObservationGraph.LoadAndCheck | backend/app/observation_graph.py:65-90 | a graph that loads has no dangling parent and no ancestry cycle |
| ObservationGraph.SomeRecordIsReady | backend/app/observation_graph.py:69-88 | a sweep that places nothing means that no order of the records exists |
| Lineage.FormHasConsistentAssetOrigins | backend/app/coverage.py:116-163 | the worklist answers the reachability question on every graph, cyclic or incomplete |
| Lineage.ConsistentFormExactly | backend/app/coverage.py:116-163 | the same for a form with parents and a usable action: everything above it exists, endpoints are approved and, like forms, of its origin, assets claim at least it, and there is one |
| Lineage.ClaimsNest | backend/app/coverage.py:70-95 | a claim of an origin supports that origin alone, one of host and port both schemes of it, one of a host every port, and no claim nothing |
| Lineage.TrustworthyLineage | backend/app/coverage.py:209-245 | a scan is trusted exactly when everything reached without passing through an asset exists and is approved, and the assets reached are a nonempty approved set |
| Lineage.TrustedExactly | backend/app/coverage.py:209-245 | a scan with parents is trusted exactly when everything reached exists and is approved and an asset is reached; one without exactly for the only asset there is; without a surface to check against every one is |
| Lineage.TrustedThroughForms | backend/app/coverage.py:116-245 | both walks together: every form below a trusted scan is approved, and the assets above that form are approved ones that support its origin |
| Lineage.LinkedLineageIds | backend/app/coverage.py:301-322 | the worklist collects exactly the reachable assets and endpoints |
| Lineage.ExplicitEndpointAncestry | backend/app/coverage.py:453-471 | the worklist collects exactly the reachable endpoints |
| ScanAccounting.CompletedScansWithProvenance | backend/app/coverage.py:247-418 | representatives, duplicates and untrusted reports add up to the completed ones; which report represents a job and which counts as what |
| ScanAccounting.CountScans | backend/app/coverage.py:166-418 | the same from the stored observations on: approved forms, trusted scans, linked assets and endpoints, then the accounting |
| ScanCredit.CountedExactly | backend/app/coverage.py:247-418 | a report counts if and only if it is a completed one whose job is believable, labelled alike, agrees on one well-formed number of findings, and that number is zero or borne out by findings on record within the job and given for one asset and endpoint claim |
| ScanCredit.JobsCountAsAWhole | backend/app/coverage.py:328-418 | all completed reports of a job count or none does |
| ScanAccounting.CreditFollowsConsistentForms | backend/app/coverage.py:116-418 | the scan of a counted report reaches only approved forms, and no asset above such a form contradicts its origin |
| ScanAccounting.SpoiledJobsHaveNoRepresentative | backend/app/coverage.py:272-299 | one report with an impossible timeline or a bad lineage denies its whole job a representative, contradictory outcomes or not |
| ScanAccounting.NoCreditThroughBadLineage | backend/app/coverage.py:209-299 | a completed scan whose ancestry has something missing or not approved, or no asset, leaves every report of its job without credit |
| ScanAccounting.OneRepresentativePerJob | backend/app/coverage.py:328-418 | a job has at most one representative |
| ScanAccounting.OrderIsIrrelevant | backend/app/coverage.py:247-418 | the accounting does not depend on the order of the observations |
| FindingClusters.ScoreLaws | backend/app/finding_correlation.py:193-235 | scores are symmetric, at most 1, and at most 0.40 across assets |
| FindingClusters.ScoreGains | backend/app/finding_correlation.py:210-216 | within one asset, agreeing on the endpoint adds exactly 0.35, on the CWE exactly 0.25, and equal titles exactly 0.15 over disjoint ones |
| FindingClusters.ScoreAcrossAssets | backend/app/finding_correlation.py:217-221 | across assets the score is that within one asset less 0.25, cut to 0.40; with nothing in common it is 0 |
| FindingClusters.TitleIsNearest | backend/app/finding_correlation.py:155-215 | the title's share is the multiple of 0.0001 nearest to 0.15 times the overlap of the title words |
| FindingClusters.DuplicatesAreConnected | backend/app/finding_correlation.py:238-273 | at any threshold up to 0.85 two findings agreeing on asset, endpoint and CWE are connected |
| FindingClusters.ClusterFindings | backend/app/finding_correlation.py:238-303 | the clusters are exactly the connected components with two or more members, pairwise disjoint, with a mean between the threshold and 1; up to a threshold of 0.85 true duplicates share one |
| FindingClusters.CollectComponent | backend/app/finding_correlation.py:261-273 | the stack loop collects one whole component |
| FindingClusters.BuildAdjacency | backend/app/finding_correlation.py:249-257 | the adjacency sets are the graph of pairs at or above the threshold |
| FindingClusters.ClustersStayWithinAsset | backend/app/finding_correlation.py:202-221 | a cluster stays within one canonical asset, if no id names findings of two assets |
| CampaignAudit.CampaignLog.Append | backend/app/campaign_audit.py:18-39 | appends the sealed event, or nothing on a key error; a valid log stays valid with one more event checked |
| CampaignAudit.Verify | backend/app/campaign_audit.py:42-74 | stops at the first fault with its reason and position; valid exactly if there is none |
| CampaignAudit.AppendKeepsValid | backend/app/campaign_audit.py:18-39 | appending keeps a log valid exactly when the verifier can confirm the signature; always with one key |
| CampaignAudit.PrefixesAreValid | backend/app/campaign_audit.py:42-74 | every prefix of a valid log is valid |
| CampaignAudit.LastHashPinsHistory | backend/app/campaign_audit.py:42-74 | two valid logs ending in the same sealed hash have the same length, legacy prefix length and sealed payloads |
| CampaignAudit.RacingWritersKeepTheChain | backend/app/main.py:208-212 | however many writers seal from snapshots of any age, the stored chain stays valid and only grows |
| AuditRecords.UndisturbedWriterAppends | backend/app/campaign_audit.py:18-39 | a writer left alone appends its events in order, each numbered by its place, hashed, and signed exactly when there is a key |
| AuditRecords.OvertakenWriterReadsAgain | backend/app/storage_core.py:277-320 | an overtaken writer changes nothing and must read again before it writes |
| AuditRecords.LegacyEndsAtTheFirstHash | backend/app/campaign_audit.py:43-46 | the chain starts at the first event with a non-empty hash |
| CampaignAudit.LegacyIsNotCovered | backend/app/campaign_audit.py:43-46 | the legacy events may be replaced without any fault appearing |
| DecisionAudit.Verify | backend/app/decision_audit.py:82-175 | the verdict, the first fault and the legacy ids |
| DecisionAudit.OrderIsIrrelevant | backend/app/decision_audit.py:96-103 | the verdict is the same for every order of the observations |
| DecisionAudit.ValidNumbersAreOneToN | backend/app/decision_audit.py:105-124 | the sealed numbers of a valid chain are exactly 1..n, each used by one decision |
| DecisionAudit.NextLinkOfValid | backend/app/decision_audit.py:69-79 | the next link continues after the last decision of a valid chain |
| AuditRecords.LatestIsFirst | backend/app/decision_audit.py:69-79 | where decisions share the greatest number, the next link continues the first of them |
| AuditRecords.NoDecisionIsLost | backend/app/decision_audit.py:82-103 | every decision is in the chain or reported by its id, the latter for want of a number or a hash |
| DecisionAudit.SealingExtends | backend/app/decision_audit.py:39-58 | sealing with the next link extends a valid chain wherever the decision is placed, exactly when the verifier can confirm the signature |
| DecisionAudit.OnlyTheCurrentLinkExtends | backend/app/orchestrator.py:588-628 | a decision sealed with any link keeps a valid chain valid if and only if it is the current link and the verifier can confirm the signature |
| DecisionAudit.RacingSealsBreakTheChain | backend/app/orchestrator.py:588-628 | two decisions sealed from one link invalidate every chain that holds both |
| DecisionAudit.LastHashPinsDecisions | backend/app/decision_audit.py:82-175 | two valid chains whose last decisions have the same hash have the same sealed decisions, number by number |
| Incidents.ApplyDomainIncidents | backend/app/domain_incident_lifecycle.py:15-65 | the loop is the three domain transitions between two cuts of the history |
| IncidentFates.ItemFates | backend/app/domain_incident_lifecycle.py:25-63 | one snapshot item by item: resolved ones stay, an open one goes on under its fingerprint or is resolved now, and each report that continues none opens an item of its own content, starting now |
| IncidentFates.LastThousand | backend/app/domain_incident_lifecycle.py:23-65 | the history is the last thousand items, and each snapshot works on those |
| Incidents.ActiveIncidentsByDomain | backend/app/domain_incident_lifecycle.py:68-79 | the last unresolved item of each domain |
| Incidents.SnapshotKeeps | backend/app/domain_incident_lifecycle.py:15-65 | the history stays bounded with at most one unresolved item per domain, and resolved items only move to the front |
| Incidents.ActiveExactly | backend/app/domain_incident_lifecycle.py:15-65 | a domain is active after a snapshot exactly when it is reported and a continued incident was not cut off; with at most 997 items exactly when it is reported, and the active item carries the report |
| Incidents.RunKeeps | backend/app/domain_incident_lifecycle.py:15-65 | the same bounds, and resolved items never rewritten, over any run of snapshots |
| VersionRange.ProbeIsSound | backend/app/affected_version_range.py:187-194 | whether a range parses does not depend on the version, so the zero probe is sound |
| VersionRange.RangeIsConvex | backend/app/affected_version_range.py:55-83 | a range contains every version between two versions it contains |
| VersionRange.TrailingZeroIsIrrelevant | backend/app/affected_version_range.py:47-52 | one more zero component names the same version |
| VersionText.WrittenVersionIsRead | backend/app/affected_version_range.py:47-52 | up to six numbers with dots between them are read back as written, with any white space around; a seventh is refused |
| VersionText.BeforeExactly | backend/app/affected_version_range.py:47-52 | versions are ordered by the first number in which they differ |
| VersionText.RangeTextMeans | backend/app/affected_version_range.py:55-73 | for every text that parses, each operator, and none, selects exactly the versions on its side |
| VersionText.CommaIntersects | backend/app/affected_version_range.py:76-83 | a comma intersects two ranges while their clauses fit the limit, and beyond it nothing parses |
| VersionText.SixteenRanges | backend/app/affected_version_range.py:86-114 | of the first sixteen range texts the non-blank ones are used, stripped, in order |
| VersionText.ObservedExactly | backend/app/affected_version_range.py:101-114 | the observed versions are the non-blank texts, stripped, each once, in order |
| VersionRange.BuildEvidence | backend/app/affected_version_range.py:86-244 | the state is affected, not affected or mixed as all, none or some of the observed versions lie in a range that parses, and unknown or not available otherwise; the lists; when support is claimed |
| VersionRange.DecideIsVerdict | backend/app/affected_version_range.py:212-221 | the branch order over the collected lists gives the declarative verdict |
| VersionRange.VerdictOfSets | backend/app/affected_version_range.py:101-114 | order and repetition of ranges and versions do not matter |
| VersionRange.MoreRangesKeepAffected | backend/app/affected_version_range.py:196-221 | further ranges never take an affected verdict back |
| AdvisoryCatalog.BuildEntries | backend/app/cve_advisory_catalog.py:154-267 | a catalog is built exactly for documents within the limits, with well-formed entries and no two different entries for one key; it holds exactly those entries, each key once, sorted |
| AdvisoryMeaning.EntryExactly | backend/app/cve_advisory_catalog.py:193-250 | an entry is read exactly when it names one product in one way, completely, with a CVE and ranges; and as just that |
| AdvisoryMeaning.AcceptableExactly | backend/app/cve_advisory_catalog.py:174-262 | the condition for a catalog, said of the document: at most 20000 entries, the declared count if any, every entry well written, no two that name one product and CVE with different ranges |
| AdvisoryCatalog.FindVerified | backend/app/cve_advisory_catalog.py:270-348 | the search loop returns the matching entries of a usable catalog, CPE first |
| AdvisoryCatalog.FoundExactly | backend/app/cve_advisory_catalog.py:270-348 | an entry is found exactly when the catalog is usable and the entry lists the vulnerability for the product |
| AdvisoryMeaning.FoundMeans | backend/app/cve_advisory_catalog.py:270-348 | the same written out: a verified catalog of the known schema, a consistent product, an authoritative entry with the CVE and both names |
| AdvisoryCatalog.AtMostOnePerKind | backend/app/cve_advisory_catalog.py:318-348 | with distinct keys at most one CPE and one package advisory match |
| AdvisoryConsensus.BuildConsensus | backend/app/cve_advisory_consensus.py:78-293 | the loops collect the evidence, instances and authorities the verdict is defined on |
| AdvisoryMeaning.StateExactly | backend/app/cve_advisory_consensus.py:212-290 | each of the seven states of a single CVE exactly, in terms of identities, verdicts, authorities and catalogs, and the counts |
| AdvisoryMeaning.NothingIsLookedUp | backend/app/cve_advisory_consensus.py:86-106 | without exactly one CVE the result is not applicable and empty |
| AdvisoryMeaning.VersionsCompared | backend/app/cve_advisory_consensus.py:108-163 | package advisories are compared with the package version alone, CPE advisories with the fingerprinted ones |
| AdvisoryMeaning.KeysOfIdentities | backend/app/cve_advisory_consensus.py:69-75 | identity keys tell identities apart when vendor and ecosystem have no colon |
| AdvisoryConsensus.AgreementExactly | backend/app/cve_advisory_consensus.py:222-274 | agreement if and only if two authorities, one identity, and every source's ranges giving the same verdict affected or not affected |
| AdvisoryConsensus.ConflictExactly | backend/app/cve_advisory_consensus.py:222-265 | a conflict is reported if and only if, for one identity and at least two authorities or snapshots, some source says affected and another not affected |
| AdvisoryConsensus.OrderAndRepetitionAreIrrelevant | backend/app/cve_advisory_consensus.py:123-274 | neither order nor repetition of catalogs matters, except to the number of matches |
| AdvisoryConsensus.ReorderingKeepsCount | backend/app/cve_advisory_consensus.py:123-178 | reordering keeps the number of matches too |
| AdvisoryConsensus.AgreementIsNotManufactured | backend/app/cve_advisory_consensus.py:222-274 | a further catalog of an authority that already speaks never creates agreement nor changes what is agreed |

## Left out

- Submission.AtMostOnceSubmission: is limited to runs without an approval after a submission, because without that limit it is false of the code (see above).
- Submission.UndisturbedCallRecordsOutcome: stored reports and their digests are intact, and an approval the reviewer is refused for unready observations is no step.
- Submission.StepKeepsInv: as in the code, every 4xx answer (408 included) is taken to mean that the remote side did not accept the report.
- Lineage.FormHasConsistentAssetOrigins: URL parsing and canonical origins are given values.
- FindingClusters.ClusterFindings: scores are integers in units of 1/10000 with exact rounding of rationals instead of floats; the sorted presentation and the cluster id are not modelled.
- ScanAccounting.CompletedScansWithProvenance: timeline plausibility and canonical asset claims are given values, and representatives are a set, so their sorted presentation is not modelled.
- EvidenceChain.AncestryIntegrity: the sorted tuples of the result are sets; `build_evidence_chains`, which lists the results per finding, is not modelled.
- RateLimiter.RedisFixedWindowLimiter.Check: Redis reads the caller's clock, times are whole seconds, and connection errors are not modelled.
- BrowserOutbox.StepKeepsInv: a flow is its fingerprint, flow validation is one of the early exits a crash covers, and repair also runs where the code refuses it for cancelled campaigns.
- Batch.OneActiveBatch: the launch lock serves one process, and batches have distinct creation times.
- Batch.ReconcilePass: the answers of the remote program, of starting a campaign and of the job queue are arbitrary inputs, so nothing is said about campaigns really running; stored retry fields are those the code itself writes.
- BatchRecords.CancellingLeaves: the text of a failure to stop a campaign is a given value, already cut to 500 characters.
- Batch.RunIsHistory: what a learning sync notes in the record is not modelled, and a sync that meets a conflict is no step.
- Breaker.ResetLifecycle: observations are listed in the order they were stored, and the identifiers derived from digests have no collisions.
- ApiOutbox.LatestPending: request ids that are not strings do not occur.
- CampaignAudit.RacingWritersKeepTheChain: all writers seal with one configured key; a misconfigured key saves nothing.
- CampaignAudit.Verify: JSON serialization is replaced by the payload itself, and a hash that is not a string does not occur.
- DecisionAudit.Verify: a misconfigured key raises an error before anything is verified or sealed, and booleans are not taken for numbers.
- VersionRange.BuildEvidence: a finding enters as the number of its vulnerability ids, and the interpreter's limit on very long digit strings is not modelled.
- AdvisoryCatalog.BuildEntries: field values come in normalized, every error is one outcome, and the document digest is a given value.
- AdvisoryConsensus.BuildConsensus: the evidence list is not sorted for presentation, and the ambiguity reasons, one per state, are not repeated.
- Incidents.ApplyDomainIncidents: only the three known domains occur in a history.
- Weighted scores, risk labels, readiness listings, journals, digests, adapters and the catalog fetch: single-branch reporting without state.
- Network, file system, browser automation, vault, environment parsing, client-address selection and response headers: foreign calls and plumbing.
