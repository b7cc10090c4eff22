# Earnings-call job coordination, modelled in Dafny

This project models the durable job-coordination layer of an earnings-call
research service, and the helpers and scripts around it. The service tracks
watchlisted and grouped stocks. It fetches concall transcripts, has a language
model analyse them, mails the analyses, and writes group research articles.
Work moves through SQLite rows and named Redis queues. The model keeps each
table as a map from row id to row, and each queue as a sequence. One pass of
a worker or scheduler loop is one atomic step at one integer clock reading.

- **Tables.** `analysis_jobs`, `email_outbox`, `transcript_fetch_schedule`,
  `transcripts`, `transcript_analyses`, `group_research_runs` and the tables
  they read are fields of `Store.Database`.
- **Queues.** `QueueService.Queue` holds one FIFO sequence per queue key.
  `enqueue` is `lpush`, `dequeue` is `brpop`, and an `available` flag says
  whether Redis answers.
- **Producers.** `AnalysisJobs` and `EmailOutbox` create job rows, keyed by
  an idempotency key or by the unique (analysis, recipient) pair, and push
  one message per row.
- **Workers.** `AnalysisWorker`, `EmailWorker` and `TranscriptFetcher` each
  claim a row under a lease, validate it, and call their collaborator. The
  collaborators are the language model, SMTP and the transcript provider;
  each call's outcome is a parameter. The worker then commits the result or
  moves the row to `retrying`/`error` with the backoff of `RetryUtils`.
- **Scheduler and recovery.** `QueueScheduler` keeps the fetch schedule in
  step and sweeps due rows onto the queues under a lease. It also gates
  group research. `Recovery` returns rows whose lease has expired.
- **Legacy poller.** `LegacyScheduler` is the transcript-upsert poller the
  web app still starts.
- **Helpers and scripts.**
  - `GroupResearch`, `TranscriptService`, `AppHelpers`, `EmailService`,
    `Markdown`, `LlmService`, `PromptService` and `KeyService` cover the
    service code.
  - `Migration`, `UpdateDefaults`, `UpdateStocks` and `InitDatabase` cover
    the maintenance scripts.
  - `StocklibFiles` and `StocklibDocs` cover the document-download app.
- **Shared modules.** `Wrappers`, `Text`, `Quarters` and `StockTable` hold
  definitions the other modules use.
- **Call sites.** `CallSites` records how Python binds the arguments of the
  calls that do not match their callee's signature.

Code that changes state is modelled by classes whose methods have `modifies`
clauses. Most of them are proved against a specification function over
values, and the lemmas beside that function state what the source promises:

- the sweeps against `CheckSweep`, `JobSweep` and `EmailSweep`, and a
  scheduler pass against `SweptTo`, `SyncedTable` and `Gated`;
- `enqueue_for_transcript` against `Enqueued`, and the recovery requeue
  against the fold `Resubmitted`;
- the legacy poller against `PolledAll`, and the stock-list update against
  `NsePass` and `BsePass`;
- one pass of each worker against `JobProcessed`, `EmailProcessed` and
  `CheckProcessed`.

The remaining methods state their whole new state in their own `ensures`.

## Model

| member | source | states |
|---|---|---|
| RetryUtils.ComputeBackoffSeconds | backend/services/retry_utils.py:4-9 | attempts <= 0 gives exactly the base; otherwise the result lies between the capped exponential min(max, base * 2^(attempts-1)) and that value plus the jitter bound max(1, base // 2) |
| RetryUtils.BackoffCeiling | backend/services/retry_utils.py:7-9 | the result never exceeds max_seconds + max(1, base // 2) |
| RetryUtils.DefaultBackoffAtMost3630 | backend/services/retry_utils.py:4-9 | with the default base 60 and maximum 3600 the delay is at most 3630 seconds |
| RetryUtils.ExponentialMonotone | backend/services/retry_utils.py:7 | the deterministic part does not decrease as attempts grow |
| RetryUtils.ExponentialSaturates | backend/services/retry_utils.py:7 | once base * 2^(a-1) reaches the maximum, every later attempt gives exactly the maximum |
| RetryUtils.BackoffAtLeastBase | backend/services/retry_utils.py:7-9 | for attempts >= 1 and base <= max the delay is at least the base |
| RetryUtils.DefaultSchedule | backend/services/retry_utils.py:4-9 | with the defaults the exponential part is 60, 120, ... 1920 for attempts 1..6 and 3600 from attempt 7 on |
| QueueService.IdField | backend/services/analysis_queue_worker.py:45-47 | a message yields a job id exactly when the field holds a non-zero integer, and then that integer |
| QueueService.QueueKeyInjective | backend/services/queue_service.py:21-22 | distinct queue names map to distinct Redis keys "<prefix>:<name>" |
| QueueService.ReverseSnoc | backend/services/queue_service.py:24-32 | pushing at the head and popping from the tail: the newest element is last in arrival order |
| QueueService.Queue.constructor | backend/services/queue_service.py:15-19 | a client over a prefix starts with no lists |
| QueueService.Queue.SetAvailable | backend/services/queue_service.py:19 | whether the Redis server is reachable is set and nothing else changes |
| QueueService.Queue.Enqueue | backend/services/queue_service.py:24-26 | when the server is reachable the payload's JSON is pushed at the head of its own list, so it joins the end of that queue's arrival order; other queues are untouched; otherwise nothing changes and the call fails |
| QueueService.Queue.Dequeue | backend/services/queue_service.py:28-36 | unreachable server: error, nothing removed; empty queue: None; otherwise exactly the oldest element is removed, the length drops by one, other queues are untouched, and a body that is not JSON gives None |
| QueueService.Queue.Length | backend/services/queue_service.py:44-48 | the number of pending messages, or 0 when the client raises |
| QueueService.Queue.Ping | backend/services/queue_service.py:38-42 | true exactly when the server is reachable |
| QueueService.Filtered | backend/services/analysis_queue_worker.py:42-47 | the loop head accepts a body exactly when it is a JSON object whose id field is a truthy int, and then yields that id; a truthy JSON value that is not an object is the one reading that raises |
| QueueService.Reach | backend/services/queue_service.py:24-26 | the number of pushes of a call that get through before the first unanswered one: all earlier pushes were answered and the next one, if any, was not |
| QueueService.ReachGrows | backend/services/queue_service.py:24-26 | a longer call gets at least as far, and exactly as far once an earlier push was unanswered |
| QueueService.Take | backend/services/queue_service.py:28-36 | one BRPOP: an error exactly when the server is unreachable; nothing for an empty queue or a body that is not JSON, otherwise the head message; the head is removed exactly when the server answered and the queue was non-empty; no other queue changes |
| QueueService.Receive | backend/services/analysis_queue_worker.py:42-47 | the BRPOP and the id test of a worker loop: unreachable, empty, or Filtered of the head message, which is removed; no other queue changes |
| QueueService.Push | backend/services/queue_service.py:24-26 | one LPUSH: the message is appended exactly when the push is answered, and nothing changes when it raises; no other queue changes |
| AnalysisJobs.BuildIdempotencyKey | backend/services/analysis_job_service.py:21-25 | without force the key is "transcript_id:source_url" (empty url gives ""); with force it strictly extends that key with a ":force:<time>" suffix, so the two never collide |
| AnalysisJobs.BaseKeyInjective | backend/services/analysis_job_service.py:22 | two non-forced keys are equal only for the same transcript id and the same url text |
| AnalysisJobs.NatToStringInjective | backend/services/analysis_job_service.py:22 | distinct transcript ids print as distinct decimal strings |
| AnalysisJobs.AfterPush | backend/services/analysis_job_service.py:65-91 | a pending/retrying/error row becomes queued with a 15-minute lock when the push succeeds; when it fails a queued row reverts to pending with retry_next_at = now and no lock; any other row is unchanged; attempts, key and force never change |
| AnalysisJobs.QueueAndAnnounce | backend/services/analysis_job_service.py:65-91 | the guarded UPDATE, the push of one "analysis" message whether or not the UPDATE matched, and the fallback, as AfterPush on the row; no other queue changes |
| AnalysisJobs.FindKey | backend/services/analysis_job_service.py:58-61 | the SELECT after an IntegrityError finds a row exactly when one holds the key, and then the one row that does |
| AnalysisJobs.InsertJob | backend/services/analysis_job_service.py:47-57 | the INSERT of a pending row for a new key takes the next id and keeps the table valid |
| AnalysisJobs.EnqueueForTranscript | backend/services/analysis_job_service.py:27-94 | None exactly for a missing transcript or (without force) an existing analysis, with nothing changed; otherwise the returned row carries the call's key, is new exactly when no row had the key, and a non-forced hit on a done job changes nothing; in every other case the row goes through AfterPush and one message is pushed when the queue is up; the result and the new jobs, counter and queue are those of Enqueued |
| AnalysisJobs.EnqueueJob | backend/services/analysis_job_service.py:96-97 | pushes one "analysis" message with the job id when the queue is reachable and touches no other queue |
| Quarters.ParseQuarter | backend/app.py:1280-1282 | a string is accepted as a quarter only when it is exactly the quarter's spelling "Q1".."Q4" |
| Quarters.ParseName | backend/app.py:1281 | every quarter's spelling is read back as that quarter |
| Quarters.Previous | backend/app.py:72-85 | the quarter before: one step back in the consecutive numbering, so Q1 of FY n goes to Q4 of FY n-1 |
| Quarters.Following | backend/app.py:72-85 | the quarter after: one step forward in the consecutive numbering |
| Quarters.PreviousFollowing | backend/app.py:72-85 | stepping forward then back, or back then forward, returns the same quarter |
| Quarters.OfOrdinalOfOrdinal | backend/app.py:53-70 | a quarter is recovered from its consecutive number |
| Quarters.Containing | backend/app.py:53-70 | the FY quarter whose three months cover the given calendar month (Apr-Jun is Q1 of the next FY, Jan-Mar Q4 of the same year) |
| Quarters.CoversUnique | backend/app.py:53-70 | a calendar month lies in exactly one FY quarter |
| EmailOutbox.OutboxMessages | backend/services/email_outbox_service.py:51-54 | the messages for the outbox ids lo .. hi-1, one per id in id order |
| EmailOutbox.AnsweredMessages | backend/services/email_outbox_service.py:49-57 | the messages phase 2 leaves: at most one per inserted id, in id order |
| EmailOutbox.AllAnswered | backend/services/email_outbox_service.py:49-57 | when every push is answered, every inserted id is announced once, in id order |
| EmailOutbox.NoneAnswered | backend/services/email_outbox_service.py:49-57 | with the server unreachable nothing is announced |
| EmailOutbox.AnsweredNamesRange | backend/services/email_outbox_service.py:49-57 | every announced message names an inserted id whose push was answered |
| EmailOutbox.OutboxGrownInsert | backend/services/email_outbox_service.py:32-44 | inserting a fresh queued row for a listed recipient whose pair has no row keeps the outbox a growth of the old one |
| EmailOutbox.InsertOutboxRow | backend/services/email_outbox_service.py:33-44 | one INSERT: afterwards the (analysis, recipient) pair has a row; an existing pair is skipped, not duplicated; a missing analysis violates the foreign key and inserts nothing |
| EmailOutbox.InsertOutboxRows | backend/services/email_outbox_service.py:27-47 | phase 1: the new rows take consecutive ids, are queued with attempts 0 and a 15-minute lock, each for a listed recipient whose pair had no row, and every recipient ends with a row |
| EmailOutbox.PushOutboxMessages | backend/services/email_outbox_service.py:49-57 | phase 2: one push per inserted id, each in its own try; the "email" queue gains exactly the answered messages, and the count is their number (possibly only some of the new rows); no revert and no other queue changes |
| EmailOutbox.EnqueueForAnalysis | backend/services/email_outbox_service.py:22-57 | no recipients: 0 and no rows; otherwise at most one row per pair, every recipient ends with a row, new rows are queued, and the queue gains exactly the answered messages of the new rows, never one for a pre-existing row; the count is the number announced, at most the number inserted |
| AnalysisWorker.FailureClassification | backend/services/analysis_queue_worker.py:190-213 | every failure adds exactly one attempt and clears the lease; status is error exactly for the five named validation messages, with no retry time, and retrying otherwise, with a retry time 60 to 3630 seconds ahead |
| AnalysisWorker.ValidationError | backend/services/analysis_queue_worker.py:84-119 | validation passes exactly when the transcript exists, is available and has a source url, and its stock exists, is watchlisted and is in no active group; every message it can give is one of the terminal five |
| AnalysisWorker.ForcedRunKeepsOnlyNew | backend/services/analysis_queue_worker.py:147-165 | after a forced run the new analysis is the only one left for its transcript, and analyses of other transcripts are untouched |
| AnalysisWorker.DoneThenFailed | backend/services/analysis_queue_worker.py:167-213 | a failure after the done-commit leaves the rows exactly as a failure would have from the start |
| AnalysisWorker.InProgressForgotten | backend/services/analysis_queue_worker.py:121-131 | marking the transcript in_progress leaves no trace once the handler or the done-commit has written |
| AnalysisWorker.ClaimForgotten | backend/services/analysis_queue_worker.py:71-79 | the handler and the done-commit rewrite every column the claim wrote |
| AnalysisWorker.Claim | backend/services/analysis_queue_worker.py:71-79 | the job row becomes in_progress with a two-hour lease; nothing else changes |
| AnalysisWorker.MarkInProgress | backend/services/analysis_queue_worker.py:121-131 | the transcript's analysis status becomes in_progress with no error |
| AnalysisWorker.Fail | backend/services/analysis_queue_worker.py:190-225 | the handler's writes: the job row as FailureClassification describes, the transcript's analysis marked error with the message cut to 500 characters |
| AnalysisWorker.RecordAnalysis | backend/services/analysis_queue_worker.py:147-165 | the analysis is inserted under the next id and the counter advances; with force, every other analysis of the transcript and their outbox rows are deleted, and without force the outbox is unchanged (OutboxAfterStore) |
| AnalysisWorker.MarkDone | backend/services/analysis_queue_worker.py:167-186 | transcript analysis done with no error, job done with no retry time and no lease |
| AnalysisWorker.CommitAndFanOut | backend/services/analysis_queue_worker.py:147-188 | the analysis is stored and both rows marked done before the email fan-out; a fan-out failure reaches the handler and leaves the job failed, with the analysis stored under the next id, the counter one higher and the outbox as the store left it (StoredOnly); otherwise one outbox row per active recipient exists |
| AnalysisWorker.Generate | backend/services/analysis_queue_worker.py:136-145 | the generation call with keywords the LLM service accepts returns the model's outcome unchanged |
| AnalysisWorker.GenerateAndCommit | backend/services/analysis_queue_worker.py:121-188 | after validation, with the corrected generate call (see Findings): a raising model call stores nothing and fails the job; otherwise the stored analysis carries the output, provider, model and the prompt resolved for the stock, and the job completes, or fails on the fan-out with that analysis kept and the outbox as the store left it |
| AnalysisWorker.ProcessJob | backend/services/analysis_queue_worker.py:53-228 | a missing or done job is a no-op; otherwise the job is claimed, and it fails with the first of validation, model and fan-out errors (terminal or retrying as classified), a fan-out failure keeping the stored analysis, or completes with the stored analysis and the email fan-out; the generate call is the corrected one (see Findings); no queue other than "email" is touched |
| AnalysisWorker.Reject | backend/services/analysis_queue_worker.py:71-119 | the claim then the handler for a failed validation: the writes FailedWrites describes for the job and its transcript |
| AnalysisWorker.ClaimAndGenerate | backend/services/analysis_queue_worker.py:71-188 | the claim, then generation and commit after a passing validation, as JobProcessed says; on completion the "email" queue gains the answered fan-out messages, otherwise no queue changes |
| AnalysisWorker.PollJob | backend/services/analysis_queue_worker.py:40-51 | one BRPOP of "analysis" and the id test; a job is processed, as JobProcessed says, exactly when an id was received, and no table changes otherwise; the head message is removed exactly when the server answered |
| AnalysisWorker.ProcessGot | backend/services/analysis_queue_worker.py:48-51 | _process_job for a received id as JobProcessed says, and no change at all for any other reading |
| AnalysisWorker.AnalysisQueueWorker.constructor | backend/services/analysis_queue_worker.py:15-23 | a new worker is not running |
| AnalysisWorker.AnalysisQueueWorker.Start | backend/services/analysis_queue_worker.py:28-33 | the worker is running afterwards; a second start while running starts no thread, so a crashed loop stays crashed, while a start after a stop clears it |
| AnalysisWorker.AnalysisQueueWorker.Stop | backend/services/analysis_queue_worker.py:35-38 | the worker is not running afterwards |
| AnalysisWorker.AnalysisQueueWorker.Crash | backend/services/analysis_queue_worker.py:40-51 | an exception outside the loop's try ends the thread |
| AnalysisWorker.AnalysisQueueWorker.RunOnce | backend/services/analysis_queue_worker.py:40-51 | one pass: nothing when stopped or when the thread has ended (until a stop and a start); otherwise one BRPOP, and an unreachable server or a truthy non-object JSON body ends the thread; a job is processed, as JobProcessed says, exactly when an id was received, and no row changes otherwise |
| EmailWorker.ReportFor | backend/services/email_queue_worker.py:75-92 | the join finds a row exactly when the analysis, its transcript and its stock exist; the symbol falls back from stock symbol to BSE code, the model name from model id to provider, and the content is the analysis output |
| EmailWorker.RetryRowSchedule | backend/services/email_queue_worker.py:116-130 | every failure sets retrying, never error, adds one attempt, frees the lease and schedules a retry 60 to 3630 seconds ahead |
| EmailWorker.SendFailure | backend/services/email_queue_worker.py:87-104 | a missing analysis fails with "Analysis not found for email"; otherwise the send fails exactly when SMTP is unconfigured or the transport raises |
| EmailWorker.SamePairKeepsUnique | backend/config.py:349-362 | rewriting an outbox row without changing its (analysis, recipient) pair keeps the pair unique |
| EmailWorker.ClaimOverwritten | backend/services/email_queue_worker.py:65-130 | the claim's in_progress status and one-hour lease are overwritten by whichever closing UPDATE follows |
| EmailWorker.ProcessJob | backend/services/email_queue_worker.py:47-133 | missing or done rows are skipped untouched; otherwise the row ends done (no retry, no lease) when the send succeeds with the joined report fields, and retrying with backoff on any failure |
| EmailWorker.EmailQueueWorker.constructor | backend/services/email_queue_worker.py:12-17 | a new worker is not running |
| EmailWorker.EmailQueueWorker.Start | backend/services/email_queue_worker.py:22-27 | the worker is running afterwards; a second start while running does not clear a crash, a start after a stop does |
| EmailWorker.EmailQueueWorker.Stop | backend/services/email_queue_worker.py:29-32 | the worker is not running afterwards |
| EmailWorker.EmailQueueWorker.RunOnce | backend/services/email_queue_worker.py:34-45 | one pass: nothing when stopped or when the thread has ended; otherwise one BRPOP, and an unreachable server or a truthy non-object JSON body ends the thread; a row is processed, as EmailProcessed says, exactly when an id was received; the oldest message is removed exactly when the server answered and there was one |
| TranscriptFetcher.ComputeNextCheck | backend/services/transcript_fetcher_worker.py:59-77 | the next check is the current time plus the status-dependent delay |
| TranscriptFetcher.Cadence | backend/services/transcript_fetcher_worker.py:59-77 | available: 12 hours; upcoming with a parsable date within a day: 10 minutes, within a week: 60 minutes, further or undated: 4 hours; error: the backoff, 60 to 3630 seconds; any other status: 4 hours; the delay is always positive |
| TranscriptFetcher.RequestOf | backend/services/transcript_fetcher_worker.py:80-84 | a message is processed only when stock_id, quarter and year are all present and truthy, and then it carries exactly those three |
| TranscriptFetcher.SymbolOf | backend/services/transcript_fetcher_worker.py:90-96 | a symbol exists exactly when the stock exists and has a non-empty symbol or, failing that, BSE code |
| TranscriptFetcher.ForPeriod | backend/services/transcript_fetcher_worker.py:104-108 | the filter keeps exactly the results of the requested quarter and year, and its first element is the first such result |
| TranscriptFetcher.FirstInPeriod | backend/services/transcript_fetcher_worker.py:123 | the index of the first result of the period: every earlier one is of another period |
| TranscriptFetcher.ExistingTranscript | backend/services/transcript_fetcher_worker.py:126-133 | the LIMIT 1 lookup finds the lowest-id transcript of the stock and period, or reports that none exists |
| TranscriptFetcher.MadeAvailable | backend/services/transcript_fetcher_worker.py:143-153 | an existing transcript becomes available with the new url and keeps its identity and analysis fields; it is unchanged when it was already available with that url |
| TranscriptFetcher.MadeUpcoming | backend/services/transcript_fetcher_worker.py:197-206 | an existing transcript becomes upcoming with the call's date and keeps its identity and analysis fields; unchanged when it already was |
| TranscriptFetcher.Applied | backend/services/transcript_fetcher_worker.py:225-234 | a schedule update frees the lock and records the check time and the next check, and keeps the row's stock and period |
| TranscriptFetcher.UpdatePeriod | backend/services/transcript_fetcher_worker.py:225-234 | the UPDATE touches exactly the schedule rows of the stock and period |
| TranscriptFetcher.UpdatePeriodKeepsUnique | backend/config.py:308-321 | the schedule update keeps (stock, quarter, year) unique |
| TranscriptFetcher.HandleFetchError | backend/services/transcript_fetcher_worker.py:252-278 | the period's schedule row is marked error with one more attempt and the next check after the error backoff; the stock's check status returns to idle |
| TranscriptFetcher.PersistedRecordsFinding | backend/services/transcript_fetcher_worker.py:122-214 | after phase 3 a transcript of the period carries the first available url, or else the first upcoming date; with neither nothing changes; transcripts of other periods are untouched |
| TranscriptFetcher.PersistedGrowth | backend/services/transcript_fetcher_worker.py:134-142 | the transcripts table gains a row exactly when a finding exists and the period had no transcript |
| TranscriptFetcher.PersistedIdempotent | backend/services/transcript_fetcher_worker.py:122-214 | persisting the same finding again inserts nothing and changes nothing |
| TranscriptFetcher.RecordAvailable | backend/services/transcript_fetcher_worker.py:122-161 | insert an available transcript under the next id or update the existing one, and log one available event |
| TranscriptFetcher.RecordUpcoming | backend/services/transcript_fetcher_worker.py:177-214 | insert an upcoming transcript or update the existing one, and log one upcoming event |
| TranscriptFetcher.RecordCheck | backend/services/transcript_fetcher_worker.py:216-236 | the period's schedule rows take the status, the check time and the next check from the cadence with attempts reset; the check status returns to idle |
| TranscriptFetcher.PersistFindings | backend/services/transcript_fetcher_worker.py:113-243 | phase 3 as a whole: status available, upcoming or none; the transcripts, events and schedule as the finding dictates; an analysis is due exactly when something is available and the stock is watchlisted and in no active group |
| TranscriptFetcher.RecordAndTrigger | backend/services/transcript_fetcher_worker.py:113-250 | phases 3 and 4: the findings persisted as PersistFindings states; for an available transcript of an eligible stock, the jobs, counter and "analysis" queue are what enqueue_for_transcript without force makes of the tables phase 3 left; otherwise no job, counter or queue change beyond phase 3 |
| TranscriptFetcher.CheckRequested | backend/services/transcript_fetcher_worker.py:102-250 | phases 1 to 4 as RequestChecked says: a failed fetch goes to the error handler and changes no transcript, job, counter or queue; otherwise the findings of the period are persisted and, for an eligible available transcript, the jobs, counter and "analysis" queue are what enqueue_for_transcript without force makes of them |
| TranscriptFetcher.MarkChecking | backend/services/transcript_fetcher_worker.py:97-98 | phase 1: the stock's check status becomes checking and nothing else changes |
| TranscriptFetcher.CheckFetchFailed | backend/services/transcript_fetcher_worker.py:86-111 | the check marked, then _handle_fetch_error, as RequestChecked says for a fetch that raised |
| TranscriptFetcher.CheckFetched | backend/services/transcript_fetcher_worker.py:86-250 | the check marked, then phases 3 and 4, as RequestChecked says for a fetch that answered; the queues change only when an analysis was requested |
| TranscriptFetcher.RequestAnalysis | backend/services/transcript_fetcher_worker.py:245-250 | phase 4: no due transcript changes nothing and returns no job; otherwise the returned job, the jobs, the counter and the "analysis" queue are what enqueue_for_transcript without force makes of them (AnalysisJobs.Enqueued) |
| TranscriptFetcher.FindingsFrom | backend/services/transcript_fetcher_worker.py:113-250 | phase 3 as PersistFindings promises followed by phase 4 as RequestAnalysis promises is exactly FindingsRecorded |
| TranscriptFetcher.ProcessJob | backend/services/transcript_fetcher_worker.py:79-250 | an incomplete message or a stock without symbol is ignored with no change; otherwise the check ends idle, after the error handler when the fetch failed, or with the findings recorded |
| TranscriptFetcher.TranscriptFetcherWorker.constructor | backend/services/transcript_fetcher_worker.py:13-20 | a new worker is not running |
| TranscriptFetcher.TranscriptFetcherWorker.Start | backend/services/transcript_fetcher_worker.py:25-30 | the worker is running afterwards; a second start while running does not clear a crash, a start after a stop does |
| TranscriptFetcher.TranscriptFetcherWorker.Stop | backend/services/transcript_fetcher_worker.py:32-35 | the worker is not running afterwards |
| TranscriptFetcher.CheckMessage | backend/services/transcript_fetcher_worker.py:37-45 | a falsy body is skipped, a truthy non-object is rejected inside the try with no change, and an object is checked as CheckProcessed says |
| TranscriptFetcher.CheckNext | backend/services/transcript_fetcher_worker.py:37-45 | one BRPOP of "transcript_check": queue down exactly when unreachable; the head is removed and handled as CheckMessage says; no table changes unless a check ran |
| TranscriptFetcher.TranscriptFetcherWorker.RunOnce | backend/services/transcript_fetcher_worker.py:37-45 | one pass: nothing when stopped or when the thread has ended; an unreachable server ends the thread; otherwise CheckNext, with a check processed as CheckProcessed says, and no table changes unless a check ran |
| QueueScheduler.CurrentQuarter | backend/services/queue_scheduler_service.py:13-24 | the current FY quarter is the one whose months cover today's month |
| QueueScheduler.LatestQuarter | backend/services/queue_scheduler_service.py:12-32 | the latest quarter is the one before the current FY quarter |
| QueueScheduler.LatestIsConcallQuarter | backend/services/queue_scheduler_service.py:12-32 | the scheduler's latest quarter is the quarter a concall held in the same month discusses (the transcript service's mapping) |
| QueueScheduler.RankedEverywhere | backend/services/queue_scheduler_service.py:122 | in a ranked list every earlier candidate comes no later in ORDER BY order than every later one |
| QueueScheduler.Best | backend/services/queue_scheduler_service.py:122 | the best-ranked candidate is one of them and no candidate precedes it |
| QueueScheduler.Remove | backend/services/queue_scheduler_service.py:122 | removing a candidate drops exactly one occurrence and keeps every other candidate |
| QueueScheduler.Ids | backend/services/queue_scheduler_service.py:127-129 | the ids of the selected rows, in order |
| QueueScheduler.Top | backend/services/queue_scheduler_service.py:122-123 | LIMIT: at most the limit and at most all candidates |
| QueueScheduler.Pick | backend/services/queue_scheduler_service.py:115-127 | the selected ids are at most the limit |
| QueueScheduler.TopIsBest | backend/services/queue_scheduler_service.py:115-127 | the selection holds only candidates, in order, and a candidate is left out only when the batch is full of candidates that rank no later |
| QueueScheduler.DueChecksExactly | backend/services/queue_scheduler_service.py:115-126 | the candidates are exactly the period's schedule rows that are due (next check NULL or past) and unlocked (lock NULL or expired) |
| QueueScheduler.DueJobsExactly | backend/services/queue_scheduler_service.py:157-169 | the candidates are exactly the pending, retrying or queued jobs whose retry time has come and whose lock is NULL or expired |
| QueueScheduler.DueOutboxExactly | backend/services/queue_scheduler_service.py:190-202 | the candidates are exactly the pending, retrying or queued outbox rows whose retry time has come and whose lock is NULL or expired |
| QueueScheduler.PickChecks | backend/services/queue_scheduler_service.py:115-127 | at most 100 schedule rows are picked |
| QueueScheduler.PickJobs | backend/services/queue_scheduler_service.py:157-169 | at most 100 analysis jobs are picked |
| QueueScheduler.PickOutbox | backend/services/queue_scheduler_service.py:190-202 | at most 200 outbox rows are picked |
| QueueScheduler.PickChecksSelects | backend/services/queue_scheduler_service.py:115-127 | only due rows are picked, and a due row is left out only when 100 rows of no lower priority were picked |
| QueueScheduler.PickJobsSelects | backend/services/queue_scheduler_service.py:157-169 | only due jobs are picked, and a due job is left out only when 100 older jobs were picked |
| QueueScheduler.PickOutboxSelects | backend/services/queue_scheduler_service.py:190-202 | only due rows are picked, and a due row is left out only when 200 rows scheduled no later were picked |
| QueueScheduler.ClearedIsKept | backend/services/queue_scheduler_service.py:78-88 | the DELETE of every row used when nothing is tracked agrees with the first DELETE statement |
| QueueScheduler.KeptUpserted | backend/services/queue_scheduler_service.py:77-88 | after the DELETE and before any upsert, the rows left satisfy the sync's invariant |
| QueueScheduler.UpsertOneValid | backend/services/queue_scheduler_service.py:93-104 | one upsert keeps (stock, quarter, year) unique and ids below the counter |
| QueueScheduler.ResyncStep | backend/services/queue_scheduler_service.py:98-101 | the DO UPDATE branch (new priority, NULL next check filled) keeps the sync's invariant |
| QueueScheduler.InsertStep | backend/services/queue_scheduler_service.py:93-97 | the INSERT branch for a stock with no row keeps the sync's invariant |
| QueueScheduler.UpsertOneStep | backend/services/queue_scheduler_service.py:91-104 | one iteration of the upsert loop keeps the sync's invariant |
| QueueScheduler.UpsertAllUpserted | backend/services/queue_scheduler_service.py:91-104 | after the upsert loop, every row is of the period and a tracked stock, surviving rows are resynced, new rows are fresh with priority 100 for watchlisted and 50 for group-only stocks, and every tracked stock has its row |
| QueueScheduler.SyncDoes | backend/services/queue_scheduler_service.py:51-108 | the DELETE then the upserts of every tracked stock establish what the sync promises |
| QueueScheduler.SyncedRows | backend/services/queue_scheduler_service.py:51-108 | after a sync every row is of the period and a tracked stock, carries its stock's priority and a next check, and a stock has a row exactly when it is tracked |
| QueueScheduler.ResyncedSettled | backend/services/queue_scheduler_service.py:98-101 | resyncing rows that already carry their priority and a next check changes nothing |
| QueueScheduler.SameRows | backend/services/queue_scheduler_service.py:51-108 | a second sync deletes and inserts no row |
| QueueScheduler.SyncIdempotent | backend/services/queue_scheduler_service.py:51-108 | syncing twice with the same tracked stocks leaves the table as the first sync did |
| QueueScheduler.SetScheduleRow | backend/services/queue_scheduler_service.py:130-137 | one row rewritten in place, keeping its stock and period |
| QueueScheduler.UpsertStock | backend/services/queue_scheduler_service.py:92-104 | one INSERT ... ON CONFLICT DO UPDATE on the table, as the upsert function describes |
| QueueScheduler.ClearSchedule | backend/services/queue_scheduler_service.py:77-88 | the DELETE: every row when nothing is tracked, otherwise the rows of other periods or of untracked stocks |
| QueueScheduler.UpsertStocks | backend/services/queue_scheduler_service.py:91-104 | the upsert loop over the tracked set, in some order that lists each stock once |
| QueueScheduler.SyncSchedule | backend/services/queue_scheduler_service.py:51-108 | _sync_schedule over the watchlisted and active-group stocks: the DELETE then the upsert of each |
| QueueScheduler.CheckMessages | backend/services/queue_scheduler_service.py:138-147 | one transcript_check message per picked row |
| QueueScheduler.CheckMessagesPrefix | backend/services/queue_scheduler_service.py:129-147 | the messages of the first n selected rows are the first n messages |
| QueueScheduler.PushChecks | backend/services/queue_scheduler_service.py:129-147 | the pushes of the check sweep stop at the first one that raises: the queue gains the messages of the answered prefix of the selected rows, and no other queue changes |
| QueueScheduler.LeasedChecksFit | backend/services/queue_scheduler_service.py:130-137 | leasing rows keeps every row's stock and period, so the table stays valid |
| QueueScheduler.CommitSchedule | backend/services/queue_scheduler_service.py:148 | the COMMIT writes the leased table |
| QueueScheduler.LeaseChecks | backend/services/queue_scheduler_service.py:128-150 | the answered prefix of the messages is pushed in order; the leases are committed exactly when every push got through, and are otherwise rolled back while the messages already pushed stay queued |
| QueueScheduler.PickedChecksDue | backend/services/queue_scheduler_service.py:115-127 | every picked schedule row is due |
| QueueScheduler.CheckSweepMeans | backend/services/queue_scheduler_service.py:110-150 | the sweep's messages are a prefix of the full list; it succeeds exactly when all went out, and then leases every picked row, else leaves the table; a down server sends nothing; with every push answered it succeeds |
| QueueScheduler.EnqueueDueChecks | backend/services/queue_scheduler_service.py:110-150 | the due rows of the period are picked by priority, at most 100, and the schedule and queue end as CheckSweep says: each row leased for 120 seconds and announced when every push got through, otherwise the pushed prefix queued and no lease kept |
| QueueScheduler.LeasedChecksSkipped | backend/services/queue_scheduler_service.py:121 | a row just leased is not picked again by a sweep before its lock expires; other rows are untouched |
| QueueScheduler.JobMessages | backend/services/queue_scheduler_service.py:180 | one analysis message per picked job |
| QueueScheduler.JobMessagesPrefix | backend/services/queue_scheduler_service.py:171-180 | the messages of the first n picked jobs are the first n messages |
| QueueScheduler.PushJobs | backend/services/queue_scheduler_service.py:171-180 | the pushes of the analysis sweep stop at the first one that raises: the queue gains the messages of the answered prefix, and no other queue changes |
| QueueScheduler.SweptJobsFit | backend/services/queue_scheduler_service.py:172-179 | setting jobs queued keeps their keys, so the table stays valid |
| QueueScheduler.CommitJobs | backend/services/queue_scheduler_service.py:181 | the COMMIT writes the swept jobs |
| QueueScheduler.LeaseJobs | backend/services/queue_scheduler_service.py:170-183 | the answered prefix of the messages is pushed in order; the jobs are committed queued with the lease exactly when every push got through, otherwise rolled back while the pushed messages stay |
| QueueScheduler.PickedJobsDue | backend/services/queue_scheduler_service.py:157-169 | every picked job is due, including queued jobs whose lock has expired |
| QueueScheduler.JobSweepMeans | backend/services/queue_scheduler_service.py:152-183 | the sweep's messages are a prefix of the full list; it succeeds exactly when all went out, and then queues and leases every picked job, else leaves the table; a down server sends nothing; with every push answered it succeeds |
| QueueScheduler.EnqueueDueAnalysisJobs | backend/services/queue_scheduler_service.py:152-183 | the due jobs are picked oldest first, at most 100, and the jobs and queue end as JobSweep says: each queued with a 900-second lock and announced when every push got through, otherwise the pushed prefix queued and no row changed |
| QueueScheduler.SweptJobsSkipped | backend/services/queue_scheduler_service.py:163 | a job just swept is not picked again before its lock expires; other jobs are untouched |
| QueueScheduler.EmailMessages | backend/services/queue_scheduler_service.py:213 | one email message per picked outbox row |
| QueueScheduler.EmailMessagesPrefix | backend/services/queue_scheduler_service.py:204-213 | the messages of the first n picked rows are the first n messages |
| QueueScheduler.PushEmails | backend/services/queue_scheduler_service.py:204-213 | the pushes of the email sweep stop at the first one that raises: the queue gains the messages of the answered prefix, and no other queue changes |
| QueueScheduler.SweptOutboxFit | backend/services/queue_scheduler_service.py:205-212 | setting outbox rows queued keeps their pairs, so the table stays valid |
| QueueScheduler.CommitOutbox | backend/services/queue_scheduler_service.py:214 | the COMMIT writes the swept outbox |
| QueueScheduler.LeaseOutbox | backend/services/queue_scheduler_service.py:203-216 | the answered prefix of the messages is pushed in order; the rows are committed queued with the lease exactly when every push got through, otherwise rolled back while the pushed messages stay |
| QueueScheduler.PickedOutboxDue | backend/services/queue_scheduler_service.py:190-202 | every picked outbox row is due |
| QueueScheduler.EmailSweepMeans | backend/services/queue_scheduler_service.py:185-216 | the sweep's messages are a prefix of the full list; it succeeds exactly when all went out, and then queues and leases every picked row, else leaves the table; a down server sends nothing; with every push answered it succeeds |
| QueueScheduler.EnqueueDueEmailJobs | backend/services/queue_scheduler_service.py:185-216 | the due rows are picked earliest scheduled first, at most 200, and the outbox and queue end as EmailSweep says: each queued with a 900-second lock and announced when every push got through, otherwise the pushed prefix queued and no row changed |
| QueueScheduler.SweptOutboxSkipped | backend/services/queue_scheduler_service.py:196 | an outbox row just swept is not picked again before its lock expires; other rows are untouched |
| QueueScheduler.GateBusy | backend/services/queue_scheduler_service.py:223-234 | the gate is busy exactly when a watchlisted stock's row of the period is due (a NULL next check does not count) or still locked |
| QueueScheduler.MaybeTriggerGroupResearch | backend/services/queue_scheduler_service.py:218-239 | a busy gate changes nothing; otherwise group research runs over every target group, as check_and_trigger_runs does |
| QueueScheduler.TargetPeriod | backend/services/queue_scheduler_service.py:241-244 | the given quarter and year when both are truthy, else the latest quarter |
| QueueScheduler.TriggeredDue | backend/services/queue_scheduler_service.py:248-270 | after a trigger the stock has a row of the period, due now, with attempts 0 and no lock; every other row is unchanged |
| QueueScheduler.TriggerForStock | backend/services/queue_scheduler_service.py:241-273 | the UPDATE of the period's row, or when it matched nothing the upsert, for the target period |
| QueueScheduler.RunSweeps | backend/services/queue_scheduler_service.py:309-312 | the three sweeps in order, the first failing one ending the sequence, leave the tables and queues as SweptTo says; only the three sweep queues change |
| QueueScheduler.PicksOf | backend/services/queue_scheduler_service.py:115-202 | the three selections fit their tables and respect the batch limits 100, 100 and 200 |
| QueueScheduler.SweepsAfter | backend/services/queue_scheduler_service.py:309-312 | the composed sweeps are the check sweep, then the analysis sweep only if it succeeded, then the email sweep only if both did |
| QueueScheduler.SweepsWhileDown | backend/services/queue_scheduler_service.py:309-312 | with the server unreachable the sweeps change nothing, and fail exactly when some row was selected |
| QueueScheduler.SweepsAllAnswered | backend/services/queue_scheduler_service.py:309-312 | when every push is answered every selected row is leased and announced, in order, on its queue |
| QueueScheduler.SweepsPartial | backend/services/queue_scheduler_service.py:309-312 | a push that raised leaves the messages before it queued; a sweep's table changes only when all its messages went out, and a failed check sweep leaves the analysis backlog alone |
| QueueScheduler.RunLaterSweeps | backend/services/queue_scheduler_service.py:310-311 | the analysis sweep, then the email sweep only when the first got through, each as its sweep function says |
| QueueScheduler.RescheduledLater | backend/services/queue_scheduler_service.py:299-323 | with a positive interval, a deadline that had come when its step ran lies after now once the pass is over |
| QueueScheduler.QueueSchedulerService.constructor | backend/services/queue_scheduler_service.py:36-46 | the intervals as given, not running, no pass recorded |
| QueueScheduler.QueueSchedulerService.Start | backend/services/queue_scheduler_service.py:294-330 | running afterwards; a fresh start makes sync and enqueue due now and the group check one interval later; a second start changes no timer |
| QueueScheduler.QueueSchedulerService.Stop | backend/services/queue_scheduler_service.py:332-335 | not running afterwards |
| QueueScheduler.QueueSchedulerService.Tick | backend/services/queue_scheduler_service.py:299-323 | one pass: the sync runs exactly when due and leaves SyncedTable, which is Synced; the sweeps run exactly when due, on the synced table, and leave what SweptTo says; a failed push ends the pass before the enqueue timer moves and before the group check; the gate runs exactly when due and not failed, as Gated says; each step that ran moves its timer (Rescheduled) |
| QueueScheduler.QueueSchedulerService.SyncStep | backend/services/queue_scheduler_service.py:304-307 | the sync runs exactly when due, leaves SyncedTable (which satisfies Synced), and moves its timer; otherwise nothing changes |
| QueueScheduler.QueueSchedulerService.EnqueueStep | backend/services/queue_scheduler_service.py:309-314 | the sweeps run exactly when due and leave what SweptTo says; success moves the timer, a failed push leaves it; when not due nothing changes |
| QueueScheduler.QueueSchedulerService.GroupStep | backend/services/queue_scheduler_service.py:316-319 | the gate runs exactly when due, does what Gated says, and moves its timer; otherwise no run changes |
| QueueScheduler.QueueSchedulerService.AfterSync | backend/services/queue_scheduler_service.py:309-321 | the rest of a pass after the sync: the sweeps as SweptTo says when due, then the gate as Gated says unless a push raised, each timer moved only by a step that ran |
| QueueScheduler.QueueSchedulerService.Reschedule | backend/services/queue_scheduler_service.py:312-313 | the enqueue deadline moves one interval past now exactly when the sweeps got through |
| QueueScheduler.TriggerNow | backend/services/queue_scheduler_service.py:275-278 | the sync for the latest quarter, which leaves SyncedTable and satisfies Synced, then the check sweep on the synced rows: the due rows picked and the schedule and queue as CheckSweep says |
| Recovery.StaleWindow | backend/services/recovery_service.py:23-27 | the window is the given minutes, 5 when none is given, and never below 1 |
| Recovery.StaleIdsExactly | backend/services/recovery_service.py:42-51 | the stale ids are exactly the transcripts whose analysis is in_progress and last touched before the cutoff, in increasing id order |
| Recovery.RecoveredJobs | backend/services/recovery_service.py:67-78 | in_progress jobs with a NULL or expired lease become retrying, due now and unlocked, keeping attempts and key; every other job is unchanged |
| Recovery.RecoveredOutbox | backend/services/recovery_service.py:80-91 | in_progress outbox rows with a NULL or expired lease become retrying, due now and unlocked, keeping attempts and pair; every other row is unchanged |
| Recovery.RecoveryIdempotent | backend/services/recovery_service.py:42-91 | after one repair no transcript is stale and no job or outbox row is recoverable, so a second run repairs nothing |
| Recovery.RepairRows | backend/services/recovery_service.py:37-95 | the committed repairs: stale transcripts reset to no analysis status, expired jobs and outbox rows recovered, and the three counts are the numbers of rows each UPDATE matched |
| Recovery.Requeue | backend/services/recovery_service.py:97-100 | the resubmission loop is the Resubmitted fold of non-forced enqueue_for_transcript calls over the stale ids: the count, jobs, counter and analysis queue are as that fold says; no other queue changes |
| Recovery.Unanalysed | backend/services/recovery_service.py:97-100 | the number of stale ids still without an analysis, at most their number |
| Recovery.ResubmittedCount | backend/services/recovery_service.py:97-100 | the fold requeues exactly the stale transcripts that exist and have no analysis |
| Recovery.RunStartupRecovery | backend/services/recovery_service.py:18-102 | the summary counts the reset transcripts, recovered jobs and outbox rows; the tables are repaired as RepairRows states; the requeue is the Resubmitted fold on the repaired jobs, and its count is Unanalysed of the stale ids, at most the number reset |
| LegacyScheduler.LatestQuarter | backend/services/scheduler_service.py:14-42 | the legacy copy of the latest-quarter rule agrees with the queue scheduler's: the quarter before the current FY quarter, spelled "Q1".."Q4" |
| LegacyScheduler.ByUrl | backend/services/scheduler_service.py:84-89 | the lookup by (stock, source url) finds the lowest-id matching transcript, or none exists |
| LegacyScheduler.UpcomingRow | backend/services/scheduler_service.py:94-98 | the fallback lookup finds an upcoming transcript of the stock and period, or none exists |
| LegacyScheduler.Existing | backend/services/scheduler_service.py:84-98 | a transcript with the same url wins; otherwise an upcoming one of the same period; none only when neither exists |
| LegacyScheduler.Touched | backend/services/scheduler_service.py:100-134 | the row an available result writes is a new row or a matched upcoming one |
| LegacyScheduler.Record | backend/services/scheduler_service.py:81-152 | one available result: insert when nothing matches, upgrade a matched upcoming row to available with the new url, leave a matched non-upcoming row alone; an auto-analysis is attempted exactly for a written row of the latest quarter without an analysis, with the scheduler's three-argument call as written, which raises and is caught (StartRaised) |
| LegacyScheduler.RecordTwice | backend/services/scheduler_service.py:81-152 | recording the same available result again changes nothing and attempts no analysis |
| LegacyScheduler.RecordAll | backend/services/scheduler_service.py:80-152 | the available loop inserts at most one row per result and keeps the table valid |
| LegacyScheduler.AttemptsGated | backend/services/scheduler_service.py:109-152 | every auto-analysis attempt is for an available row of the stock in the latest quarter without an analysis |
| LegacyScheduler.Announce | backend/services/scheduler_service.py:156-168 | an upcoming call inserts an upcoming row only when the period has none, never changes an existing row, and afterwards the period has one |
| LegacyScheduler.AnnounceAll | backend/services/scheduler_service.py:155-168 | the upcoming loop inserts at most one row per call and leaves existing rows alone |
| LegacyScheduler.AnnouncedAll | backend/services/scheduler_service.py:155-168 | after the loop every announced period has an upcoming row |
| LegacyScheduler.AnnounceAllSettled | backend/services/scheduler_service.py:155-168 | when every period already has its upcoming row the loop changes nothing |
| LegacyScheduler.AnnounceAllIdempotent | backend/services/scheduler_service.py:155-168 | announcing the same calls twice inserts nothing the second time |
| LegacyScheduler.Processed | backend/services/scheduler_service.py:58-168 | a stock with neither symbol nor BSE code is skipped with no change; otherwise the available then upcoming loops |
| LegacyScheduler.SetRows | backend/services/scheduler_service.py:106 | the commit writes the transcripts and the counter |
| LegacyScheduler.RecordAvailable | backend/services/scheduler_service.py:84-152 | one iteration of the available loop on the database, as Record states, the attempt raising as written |
| LegacyScheduler.RecordAvailableAll | backend/services/scheduler_service.py:80-152 | the available loop on the database, as RecordAll states |
| LegacyScheduler.AnnounceCall | backend/services/scheduler_service.py:157-168 | one iteration of the upcoming loop on the database, as Announce states |
| LegacyScheduler.AnnounceCalls | backend/services/scheduler_service.py:155-168 | the upcoming loop on the database, as AnnounceAll states |
| LegacyScheduler.ProcessStock | backend/services/scheduler_service.py:58-168 | _process_stock on the database for the latest quarter of the clock |
| LegacyScheduler.DedupExactly | backend/services/scheduler_service.py:197-204 | the merged list holds every id of the input exactly once |
| LegacyScheduler.PollList | backend/services/scheduler_service.py:197-204 | the dict merge: watchlist stocks then group stocks, each id once, in first-seen order |
| LegacyScheduler.PolledAll | backend/services/scheduler_service.py:207-208 | the stock loop keeps the table valid, never lowers the id counter, deletes no row and changes only upcoming rows (Kept) |
| LegacyScheduler.PolledSnoc | backend/services/scheduler_service.py:207-208 | polling one more stock is one more _process_stock on the table the earlier ones left, its attempts appended |
| LegacyScheduler.PollNext | backend/services/scheduler_service.py:207-208 | one pass of the loop on the database takes the table and attempts from PolledAll of the first k stocks to PolledAll of the first k + 1 |
| LegacyScheduler.PollWatchlist | backend/services/scheduler_service.py:170-215 | every stock that is watchlisted or in any group (active or not) is processed exactly once, in merge order, and the table and attempts are those of PolledAll over that list |
| LegacyScheduler.CheckAndScheduleStock | backend/services/scheduler_service.py:217-234 | a missing stock changes nothing; otherwise _process_stock for it |
| LegacyScheduler.LegacySchedulerService.constructor | backend/services/scheduler_service.py:45-51 | the poll interval as given, not running, no thread started |
| LegacyScheduler.LegacySchedulerService.Start | backend/services/scheduler_service.py:255-264 | running afterwards; a second start starts no second thread |
| LegacyScheduler.LegacySchedulerService.Stop | backend/services/scheduler_service.py:266-271 | not running afterwards |
| GroupResearch.Members | backend/services/group_research_service.py:140-149 | the join lists only existing stocks, at most one per membership row, each with COALESCE(symbol, BSE code) as its symbol |
| GroupResearch.FirstAvailable | backend/services/group_research_service.py:155-163 | the fetchone finds an available transcript of the stock for the quarter and year, or none exists |
| GroupResearch.CollectPartitions | backend/services/group_research_service.py:151-175 | available and missing split the group's stocks: a stock is missing exactly when it has no available transcript for the period, listed as available exactly when it has one, and every listed transcript is such a one |
| GroupResearch.CollectLengths | backend/services/group_research_service.py:151-175 | available and missing together have as many entries as the group has stocks |
| GroupResearch.MissingExactly | backend/services/group_research_service.py:164-173 | a stock is missing exactly when no available transcript for the period exists |
| GroupResearch.AvailableExactly | backend/services/group_research_service.py:164-171 | a stock is listed as available exactly when an available transcript for the period exists, and the listed id is one |
| GroupResearch.CollectTranscripts | backend/services/group_research_service.py:133-175 | _collect_transcripts returns the members, the available items and the missing stocks as the partition lemmas describe |
| GroupResearch.GroupStockIds | backend/services/group_research_service.py:129-131 | the ids are exactly the stock ids of the group's membership rows |
| GroupResearch.CommonMeansEveryStock | backend/services/group_research_service.py:223-232 | a period is in the intersection exactly when every stock of the group has an available transcript for it |
| GroupResearch.CommonEmptyStays | backend/services/group_research_service.py:231-232 | once the running intersection is empty it stays empty, so the early break loses nothing |
| GroupResearch.Intersection | backend/services/group_research_service.py:224-232 | the loop with its early break computes the intersection over all the group's stocks |
| GroupResearch.RunFor | backend/services/group_research_service.py:188-194 | the lookup finds the run of the (group, quarter, year), or none exists |
| GroupResearch.HandleRun | backend/services/group_research_service.py:239-254 | handling an existing run keeps its group and period |
| GroupResearch.HandledExisting | backend/services/group_research_service.py:238-254 | an existing errored run is reset to pending and started; a pending, in-progress or done run is left alone and not started |
| GroupResearch.HandledInserted | backend/services/group_research_service.py:255-270 | a period without a run gets a new pending run with the next id, and that run is started |
| GroupResearch.TriggerAllAppend | backend/services/group_research_service.py:237-270 | handling a list of periods is handling its first part and then the rest |
| GroupResearch.StepRunValid | backend/services/group_research_service.py:237-270 | one period's step keeps the run table valid and never lowers the id counter |
| GroupResearch.StepRunHandled | backend/services/group_research_service.py:237-270 | one period's step extends the handled relation by that period |
| GroupResearch.TriggerAllKeepsHandled | backend/services/group_research_service.py:237-270 | handling distinct unhandled periods keeps the table valid and extends the handled relation by all of them |
| GroupResearch.TriggerAllHandled | backend/services/group_research_service.py:237-270 | after a group's periods: every errored run is pending and started, every pending/in-progress/done run unchanged and not started, every new period has one new pending started run, and no other run changes |
| GroupResearch.TriggerPeriod | backend/services/group_research_service.py:238-270 | one iteration on the database, as StepRun states |
| GroupResearch.Enumerate | backend/services/group_research_service.py:237 | the iteration over the intersection visits each period of the set exactly once |
| GroupResearch.TriggerAllFrom | backend/services/group_research_service.py:237-270 | the loop from position i is the step at i followed by the rest |
| GroupResearch.TriggerKeys | backend/services/group_research_service.py:237-270 | the loop over a group's periods on the database, as TriggerAll states |
| GroupResearch.CheckAndTriggerRuns | backend/services/group_research_service.py:196-275 | the scan visits each (group, quarter, year) exactly once, and exactly those of active groups with a prompt and stocks where every stock has an available transcript for the period |
| GroupResearch.Symbols | backend/services/group_research_service.py:507 | the included symbols are those of the available items, in order |
| GroupResearch.MemberSymbols | backend/services/group_research_service.py:507 | the missing symbols are those of the missing stocks, in order |
| GroupResearch.ForceRefusal | backend/services/group_research_service.py:501-511 | a group without stocks returns (None, [], []); every refusal carries no run id |
| GroupResearch.ForcedOnlyWhenReady | backend/services/group_research_service.py:499-511 | force_run goes on to create a run exactly when the group has stocks, at least one has a transcript for the period, and without partial mode all of them have one |
| GroupResearch.UpsertPending | backend/services/group_research_service.py:514-533 | the upsert leaves exactly one pending run for the period: a new one with the next id, or the existing one set back to pending |
| GroupResearch.ForceRun | backend/services/group_research_service.py:490-544 | a refusal changes nothing; otherwise the returned run is the pending run of the period, the symbol lists are those of the available and missing stocks, and no other run changes |
| GroupResearch.JoinSymbols | backend/services/group_research_service.py:317 | the join succeeds exactly when no symbol is NULL |
| GroupResearch.FirstNull | backend/services/group_research_service.py:317 | the first NULL position, with every earlier symbol present |
| GroupResearch.Gather | backend/services/group_research_service.py:326-344 | without partial mode a failed download aborts the run; with it nothing aborts; each item becomes a part or a failure |
| GroupResearch.GatherPrefix | backend/services/group_research_service.py:328-344 | the download loop over one more item is one more step |
| GroupResearch.GatheredPartsTruncated | backend/services/group_research_service.py:340-344 | every part is a listed stock's download cut to 12000 characters |
| GroupResearch.GatherParts | backend/services/group_research_service.py:326-344 | the loop with its early return computes Gather |
| GroupResearch.AbortedStays | backend/services/group_research_service.py:338-339 | once a download aborts the run, later items change nothing |
| GroupResearch.Refusal | backend/services/group_research_service.py:296-323 | the run goes on to downloads only for an active group with a prompt, with stocks, with available transcripts, and with none missing unless partial |
| GroupResearch.Finished | backend/services/group_research_service.py:281-432 | the finished run keeps its group and period and is done or error, never left in progress |
| GroupResearch.DoneNeedsEveryTranscript | backend/services/group_research_service.py:292-399 | without partial mode a run ends done only when the group has stocks, each has an available transcript and every download gave text, and then no error message is stored |
| GroupResearch.NoFailureWithoutPartial | backend/services/group_research_service.py:334-339 | a download loop that finishes without partial mode had no failed download |
| GroupResearch.FinishedIgnoresStart | backend/services/group_research_service.py:293 | the in-progress mark is overwritten by the final status |
| GroupResearch.MarkInProgress | backend/services/group_research_service.py:293 | the run is in progress with no error and nothing else changes |
| GroupResearch.FinishRun | backend/services/group_research_service.py:281-290 | the run row gets the final status; a missing run id changes nothing |
| GroupResearch.DecideRun | backend/services/group_research_service.py:295-375 | the decision is RunEndOf of the group row, the collected transcripts, the downloads and the corrected generate call (see Findings) |
| GroupResearch.RunEndOf | backend/services/group_research_service.py:295-375 | a run succeeds only for an active group with a deep-research prompt, which becomes the stored prompt; some stocks, some available transcript, no missing one unless partial runs are allowed, a download that gave text, and a model call that answered |
| GroupResearch.ProcessRun | backend/services/group_research_service.py:277-434 | _process_run, with the corrected generate call (see Findings), stores the decided end on its run and changes no other run |
| TranscriptService.ParseEventTime | backend/services/transcript_service.py:63-74 | an absent or empty time gives none; an ISO text parses to its moment |
| TranscriptService.CalculateFyQuarter | backend/services/transcript_service.py:94-132 | the quarter a concall discusses is the one before the FY quarter containing its date |
| TranscriptService.CalculatedIsPrevious | backend/services/transcript_service.py:115-130 | the four month bands: Apr-Jun gives Q4 of the year, Jul-Sep Q1 of the next FY, Oct-Dec Q2 of the next FY, Jan-Mar Q3 of the year |
| TranscriptService.CalculateFyQuarterOf | backend/services/transcript_service.py:107-109 | an unparseable time raises ValueError; a parseable one gives the quarter of its moment |
| TranscriptService.EventTimeOf | backend/services/transcript_service.py:163 | the first non-empty of concall_event_time, event_time and event_date; none only when all three are empty |
| TranscriptService.Collected | backend/services/transcript_service.py:157-185 | only items with a transcript url and a parseable time are kept, each with the quarter and FY its time gives |
| TranscriptService.CollectedPrefix | backend/services/transcript_service.py:158-185 | the loop over one more item is one more step |
| TranscriptService.Metadata | backend/services/transcript_service.py:189 | the metadata of each entry, in order |
| TranscriptService.InsertByTime | backend/services/transcript_service.py:188 | inserting an entry adds exactly that entry, and the newer of it and the old head comes first |
| TranscriptService.InsertByTimeSorted | backend/services/transcript_service.py:188 | inserting into a newest-first list keeps it newest first |
| TranscriptService.SortNewestFirst | backend/services/transcript_service.py:188 | the sort is newest first and a permutation of its input |
| TranscriptService.FetchAvailableTranscripts | backend/services/transcript_service.py:134-194 | no ISIN or a failed request gives []; otherwise the collected entries sorted newest first |
| TranscriptService.CollectedHasUrl | backend/services/transcript_service.py:159-161 | every entry of a permutation of the collected list has a url |
| TranscriptService.FetchedNewestFirst | backend/services/transcript_service.py:157-189 | the result is newest first, a permutation of the kept items, each with a url |
| TranscriptService.UpcomingEntry | backend/services/transcript_service.py:314-322 | an upcoming entry has no url, carries its event date, and the quarter and FY its time gives |
| TranscriptService.UpcomingEntries | backend/services/transcript_service.py:302-323 | at most one entry per item, each without url and with an event date |
| TranscriptService.UpcomingSkipsOtherStatus | backend/services/transcript_service.py:304-306 | an item whose stripped, lower-cased status is neither empty nor "upcoming" adds nothing |
| TranscriptService.UnparseableTimeEmptiesAll | backend/services/transcript_service.py:311-312 | an admitted item whose time cannot be parsed raises out of the loop, so the whole result is empty |
| TranscriptService.CollectUpcoming | backend/services/transcript_service.py:302-323 | the loop computes Upcoming |
| TranscriptService.GetUpcomingCalls | backend/services/transcript_service.py:276-327 | a symbol without an ISIN or a failed request gives []; otherwise the upcoming entries, or [] when the loop raised |
| TranscriptService.Utf8 | backend/services/transcript_service.py:87-89 | a character encodes to one to four bytes |
| TranscriptService.PercentBytes | backend/services/transcript_service.py:87-89 | a percent-escape consists of '%' and hex digits only |
| TranscriptService.Quote | backend/services/transcript_service.py:87-89 | quoting keeps the empty string empty and nothing else |
| TranscriptService.QuoteKeepsText | backend/services/transcript_service.py:87-89 | a text of safe characters is left as it is |
| TranscriptService.QuoteOutputKept | backend/services/transcript_service.py:87-89 | with '%' safe, every character of the output is safe |
| TranscriptService.QuoteIdempotent | backend/services/transcript_service.py:87-89 | with '%' safe, quoting twice is quoting once |
| TranscriptService.FirstOf | backend/services/transcript_service.py:84 | the first position holding one of the delimiters, none before it |
| TranscriptService.SplitOnce | backend/services/transcript_service.py:84 | splitting at the first occurrence of a character: the part before holds none, and the parts and the character rebuild the text |
| TranscriptService.UrlSplit | backend/services/transcript_service.py:84 | a successful split gives a netloc with no '/', '?' or '#', a path with no '?' or '#', a query with no '#', and a netloc with balanced brackets (an unbalanced one raises ValueError) |
| TranscriptService.SplitAfterScheme | backend/services/transcript_service.py:84 | the split after the scheme keeps the scheme and gives components with no later delimiter and a balanced netloc |
| TranscriptService.UrlUnsplit | backend/services/transcript_service.py:90 | the rebuilt url starts with scheme, "://" and netloc, and a '/' is inserted before a path that does not start with one |
| TranscriptService.SplitUnsplit | backend/services/transcript_service.py:84-90 | for any parts urlsplit can return with a scheme, splitting the rebuilt url gives back exactly those parts |
| TranscriptService.LStripC0 | backend/services/transcript_service.py:84 | the split input starts with no control character or space |
| TranscriptService.UnsplitPrefix | backend/services/transcript_service.py:90 | the rebuilt url starts with the scheme, "://" and the netloc |
| TranscriptService.SanitizeUrl | backend/services/transcript_service.py:76-92 | None stays None, "" stays "", and an all-blank url becomes "" |
| TranscriptService.ReplaceRemovesChar | backend/services/transcript_service.py:86 | replacing every space leaves no space |
| TranscriptService.RelativeUrlOnlyEscapesSpaces | backend/services/transcript_service.py:85-86 | a url without scheme or netloc is stripped and has its spaces escaped, and then holds no space |
| TranscriptService.QuotedIdempotent | backend/services/transcript_service.py:87-89 | quoting the path, query and fragment twice is quoting them once |
| TranscriptService.SanitizedAbsolute | backend/services/transcript_service.py:87-90 | an absolute url is rebuilt from its quoted parts |
| TranscriptService.AbsoluteUrlQuotedOnce | backend/services/transcript_service.py:76-92 | an absolute url keeps its scheme and netloc in front, and sanitizing it is the same as quoting its parts twice, so an already-escaped url is not escaped again |
| AppHelpers.CurrentFyQuarter | backend/app.py:53-70 | the FY quarter containing the clock's month: Apr-Jun Q1, Jul-Sep Q2, Oct-Dec Q3 of the next FY, Jan-Mar Q4 of the year |
| AppHelpers.PreviousFyQuarter | backend/app.py:72-85 | the quarter before the current one, and the same quarter the queue scheduler, the legacy scheduler and the transcript service compute |
| AppHelpers.LastTwo | backend/app.py:100 | `str(fy)[-2:]`: the last two characters, or the whole text when shorter |
| AppHelpers.OrderIndex | backend/app.py:93-103 | every quarter has its position in the Q4, Q3, Q2, Q1 order |
| AppHelpers.AvailableQuarters | backend/app.py:87-110 | count options (none for count <= 0), the k-th being k quarters before the previous quarter |
| AppHelpers.BackAt | backend/app.py:102-108 | the quarter k ordinals back from the start is the k-th picker entry |
| AppHelpers.PickerStepsBack | backend/app.py:102-108 | each step of the picker moves exactly one quarter back, wrapping Q1 to Q4 of the previous FY |
| AppHelpers.WatchlistPeriod | backend/app.py:161-166 | a given quarter and non-zero year are used as is; otherwise the previous quarter of the clock |
| AppHelpers.DeriveStatus | backend/app.py:226-302 | each watch status holds exactly under its condition: analyzing when in progress, else fetching while a check runs, else upcoming, analysis failed, analyzed or transcript ready by the transcript and its analysis, else no transcript |
| AppHelpers.ParseForce | backend/app.py:1261-1267 | a boolean is used as is, absence is false, any other value is true exactly when its stripped lower-cased text is one of 1, true, yes, y, on |
| AppHelpers.ValidateTrigger | backend/app.py:1268-1282 | a non-integer year is a 400; no quarter with no or zero year targets the latest; a quarter with a non-zero year targets that period exactly when the upper-cased quarter is Q1-Q4 |
| AppHelpers.TriggerCode | backend/app.py:1255-1322 | the route answers 202 exactly when the parameters are valid, the stock exists, a targeted transcript is available with a url, and the job starts; invalid parameters give 400 |
| AppHelpers.TriggerAnalysisNeverStarts | backend/app.py:1315 | the route as written never answers 202, since the keyword call raises TypeError |
| AppHelpers.TriggerAnalysisAsWritten | backend/app.py:1255-1322 | the route as written answers as the corrected route does, except that every 202 becomes a 500 (the keyword call raises) |
| AppHelpers.TriggerAnalysis | backend/app.py:1255-1322 | with the one-argument call the route answers 202 exactly when the parameters are valid, the stock exists and a targeted transcript is available with a url |
| AppHelpers.MaskKey | backend/app.py:1585 | a key longer than 8 shows its first four characters, "..." and its last four; a shorter one shows "****" |
| AppHelpers.MaskHidesMiddle | backend/app.py:1585 | a masked key reveals only its first and last four characters |
| AppHelpers.PollTriggerCode | backend/app.py:43-51 | without a trigger_poll method the route answers 500; with one, 202 exactly when a poll started and 200 otherwise |
| AppHelpers.PollStatusCode | backend/app.py:36-41 | the status route answers 200 exactly when the scheduler has get_poll_status |
| AppHelpers.PollRoutesAlwaysFail | backend/app.py:36-51 | against the scheduler service as written both poll routes answer 500 |
| AppHelpers.PollRoutesWithMethods | backend/app.py:36-51 | with the two methods present the routes answer 202/200 and 200 |
| CallSites.UnexpectedKeyword | backend/services/llm/llm_service.py:65-73 | a call binds exactly when every keyword it passes is a parameter of generate; otherwise the first foreign keyword is reported |
| CallSites.CallGenerate | backend/services/llm/llm_service.py:65-73 | a call with only known keywords has the provider's outcome; any other raises TypeError |
| CallSites.CallAsWrittenAlwaysRaises | backend/services/analysis_queue_worker.py:136-142 | the worker's and the group research call pass task_type, so generate always raises TypeError |
| CallSites.CorrectedCallPassesThrough | backend/services/analysis_queue_worker.py:136-140 | the call without task_type has the provider's outcome |
| CallSites.PositionalCount | backend/services/analysis_worker.py:29 | at most as many positional arguments as arguments |
| CallSites.UnexpectedName | backend/services/analysis_worker.py:29 | no foreign keyword exactly when every keyword argument is stock_id |
| CallSites.BindStockId | backend/services/analysis_worker.py:29 | start_analysis_job(stock_id) binds exactly one argument, positional or named stock_id |
| CallSites.NamedOnce | backend/services/analysis_worker.py:29 | binding with at most one positional argument: one argument binds to it |
| CallSites.StartAnalysisJob | backend/services/analysis_worker.py:29-44 | a call that binds returns the job name of its stock and the clock; any other raises TypeError |
| CallSites.AutoAnalysisCallAlwaysRaises | backend/services/scheduler_service.py:122 | the legacy scheduler's three-argument call always raises TypeError |
| CallSites.TriggerCallAlwaysRaises | backend/app.py:1315 | the route's call with quarter, year and force keywords always raises TypeError |
| CallSites.StartCallStarts | backend/services/analysis_worker.py:29-44 | the one-argument call starts the job named after the stock and the clock |
| CallSites.AutoAnalysisCallAsWritten | backend/services/scheduler_service.py:122 | the legacy scheduler passes three positional arguments and no keyword, so stock_id cannot bind |
| CallSites.TriggerCallAsWritten | backend/app.py:1315 | the route's call passes quarter as an unexpected keyword, so stock_id cannot bind |
| CallSites.StartCall | backend/services/analysis_worker.py:29 | the one-argument call binds stock_id to the decimal text of the id |
| EmailService.RenderTemplate | backend/services/email_service.py:157-179 | the loop replaces each "{{KEY}}" with its value, in order |
| EmailService.ReplaceAbsent | backend/services/email_service.py:175 | replacing a placeholder that does not occur changes nothing |
| EmailService.ReplaceLeftmost | backend/services/email_service.py:175 | str.replace rewrites the leftmost occurrence and continues after it |
| EmailService.ReplaceSelf | backend/services/email_service.py:175 | replacing a text by itself changes nothing |
| EmailService.RenderWithoutPlaceholders | backend/services/email_service.py:173-177 | a template with none of the placeholders renders unchanged |
| EmailService.SendEmail | backend/services/email_service.py:86-120 | without SMTP settings it raises the configuration error; otherwise it succeeds exactly when the transport succeeds, and a failure raises "SMTP authentication failed: " for a rejected login and "Failed to send email: " for any other error, followed by the error text |
| EmailService.SmtpErrorsDistinct | backend/services/email_service.py:117-120 | a rejected login and any other transport failure never raise the same message, whatever their texts |
| EmailService.UnconfiguredIgnoresTransport | backend/services/email_service.py:89-91 | without SMTP settings nothing is sent, whatever the transport would do |
| EmailService.DisplayModel | backend/services/email_service.py:198 | the model name when given, else the upper-cased provider |
| EmailService.TranscriptLink | backend/services/email_service.py:209 | the transcript url when given, else "#" |
| EmailService.AnalysisEmailFor | backend/services/email_service.py:197-219 | the email goes to the recipient with the nine template variables, the model name and link as above |
| EmailService.SendAnalysisEmail | backend/services/email_service.py:181-222 | it succeeds exactly when SMTP is configured and the transport succeeds; its error is "Failed to send analysis email: " followed by send_email's own message |
| Markdown.Cleaned | backend/services/email_service.py:138-153 | after n lines the output ends with the n-th line as emitted: stripped when it is a table row, verbatim otherwise |
| Markdown.CleanedLength | backend/services/email_service.py:138-153 | the output has one line per input line plus one per blank line inserted |
| Markdown.LinesKept | backend/services/email_service.py:138-153 | every input line appears, as emitted, at its position in the output, and a padded line has a blank line right before it |
| Markdown.PositionIncreases | backend/services/email_service.py:138-153 | input lines keep their order in the output |
| Markdown.InsertedBlanksOnlyAtBoundaries | backend/services/email_service.py:144-151 | every output line that is not an input line is a blank line put right before a line that opens or closes a table |
| Markdown.PadDecision | backend/services/email_service.py:141-153 | a blank line is inserted exactly when the line opens or closes a table and the previous output line is not blank |
| Markdown.NormalizeMarkdown | backend/services/email_service.py:132-155 | the loop over the split lines computes Cleaned, joined with newlines |
| PromptService.NewestMembership | backend/services/prompt_service.py:40-50 | the chosen membership is one of the stock's in an active group |
| PromptService.NewestMembershipIsNewest | backend/services/prompt_service.py:40-50 | the chosen membership is not older than any other active one, and there is none exactly when the stock is in no active group |
| PromptService.DefaultPrompt | backend/services/prompt_service.py:60-77 | the stored default prompt when non-empty, else the built-in text |
| PromptService.ResolvePrompt | backend/services/prompt_service.py:26-58 | the resolved prompt is never empty |
| PromptService.NoActiveGroupUsesDefault | backend/services/prompt_service.py:52-55 | a stock in no active group gets the default prompt |
| PromptService.NewestPromptWins | backend/services/prompt_service.py:40-55 | the newest active membership's group prompt is used when non-empty, the default otherwise |
| LlmService.KindOf | backend/services/llm/llm_service.py:51-60 | exactly the four provider names have a provider class, each its own |
| LlmService.FirstRow | backend/services/llm/llm_service.py:36-41 | fetchone gives the first matching provider row, or none matches |
| LlmService.Fresh | backend/services/llm/llm_service.py:33-60 | a provider is built exactly when the first active row of the name has a non-empty key and the name is known, with that key |
| LlmService.CacheAfter | backend/services/llm/llm_service.py:28-63 | a resolved provider is cached under its name; nothing is cached on failure; other names are untouched |
| LlmService.CachedProviderSticks | backend/services/llm/llm_service.py:30-31 | once cached, a provider is returned whatever the table says later |
| LlmService.SetKey | backend/services/llm/llm_service.py:260-264 | every row of the name gets the key and no other row changes |
| LlmService.NewKeyIsUsed | backend/services/llm/llm_service.py:255-273 | after set_api_key the next lookup builds the provider with the new key, when the name has an active row and the key is non-empty |
| LlmService.FirstRowAfterSetKey | backend/services/llm/llm_service.py:260-264 | setting a key does not change which row of the name is first |
| LlmService.EffectiveParams | backend/services/llm/llm_service.py:127-136 | thinking is on when asked or enabled in the row; the budget is the stored one or 0; max tokens is the user override, else the lesser of the request and the model's cap |
| LlmService.ChooseModel | backend/services/llm/llm_service.py:91-100 | a given model id is used; otherwise the default setting, with "No default model configured" when there is none |
| LlmService.Target | backend/services/llm/llm_service.py:102-116 | the target is the chosen model when it exists and is active, with its provider's name; otherwise "Model N not found or inactive" |
| LlmService.Plan | backend/services/llm/llm_service.py:87-146 | target errors pass through; an unconfigured provider gives "Provider X not configured"; otherwise the request goes to the resolved provider with the model's id |
| LlmService.PlanUsesEffectiveParams | backend/services/llm/llm_service.py:119-146 | a planned request uses an active model and the effective thinking and token limits |
| LlmService.ContainsIffOccurs | backend/services/llm/llm_service.py:212 | `in` on strings holds exactly when the text occurs at some position |
| LlmService.NewModel | backend/services/llm/llm_service.py:186-213 | a new model row is active, with user max tokens from the model, thinking enabled exactly for o1 models that support it, and the thinking budget the model's cap or 0 |
| LlmService.MatchIdFinds | backend/services/llm/llm_service.py:192 | the conflict lookup finds the row of (provider, model) exactly when one exists |
| LlmService.Upsert | backend/services/llm/llm_service.py:186-214 | the model is present afterwards; an existing row is refreshed keeping its user settings; a new one gets the next id; other rows are untouched |
| LlmService.SyncAll | backend/services/llm/llm_service.py:185-215 | the loop keeps the catalogue valid |
| LlmService.SyncedAll | backend/services/llm/llm_service.py:185-215 | every listed model is present afterwards, no row loses its user settings, and other providers' rows are untouched |
| LlmService.ResyncAddsNothing | backend/services/llm/llm_service.py:185-215 | syncing models already present inserts no row |
| LlmService.ConfigFields | backend/services/llm/llm_service.py:296-312 | no field is set exactly when the config names none of the three |
| LlmService.Configured | backend/services/llm/llm_service.py:299-317 | each named field takes the config's value, every other column is unchanged |
| LlmService.EmptyConfigChangesNothing | backend/services/llm/llm_service.py:311-312 | an empty config changes nothing |
| LlmService.ConfigureIdempotent | backend/services/llm/llm_service.py:299-317 | applying the same config twice is applying it once |
| LlmService.LlmTables.UpsertModels | backend/services/llm/llm_service.py:185-215 | the loop on the table computes SyncAll and counts every listed model |
| LlmService.LlmTables.constructor | backend/services/llm/llm_service.py:20-21 | the provider rows and default setting as given, no models yet |
| LlmService.LlmGateway.constructor | backend/services/llm/llm_service.py:20-21 | the provider cache starts empty |
| LlmService.LlmGateway.GetProvider | backend/services/llm/llm_service.py:28-63 | the result is the cached or freshly built provider, and the cache is updated as CacheAfter states |
| LlmService.LlmGateway.Generate | backend/services/llm/llm_service.py:65-146 | the request is Plan of the tables; the cache changes only by resolving the target's provider |
| LlmService.LlmGateway.SetApiKey | backend/services/llm/llm_service.py:255-273 | the rows of the name get the key, the name is dropped from the cache, and the result is true |
| LlmService.LlmGateway.SyncModels | backend/services/llm/llm_service.py:157-220 | an unconfigured provider or one without a row raises with its message and changes nothing; otherwise every listed model is upserted and the count returned |
| LlmService.LlmGateway.UpdateModelConfig | backend/services/llm/llm_service.py:275-324 | a missing model raises "Model not found"; otherwise the row is Configured and the result is true |
| KeyService.Lookup | backend/services/key_service.py:17-37 | a key is found exactly when the read succeeds and the name has an active row, and it is that row's key |
| KeyService.Upserted | backend/services/key_service.py:47-53 | the name's row holds the key and is active, and no other row changes |
| KeyService.SetThenGet | backend/services/key_service.py:17-59 | after setting a key, getting it returns that key |
| KeyService.SetLeavesOthers | backend/services/key_service.py:47-53 | setting one provider's key does not change another's lookup |
| KeyService.SetIdempotent | backend/services/key_service.py:47-53 | setting the same key twice is setting it once |
| KeyService.KeyStore.constructor | backend/services/key_service.py:11-12 | the store holds the given rows |
| KeyService.KeyStore.GetApiKey | backend/services/key_service.py:17-37 | as Lookup: a failed read gives None |
| KeyService.KeyStore.SetApiKey | backend/services/key_service.py:39-59 | a failed write raises and changes nothing; otherwise the rows are Upserted |
| Migration.BeforeParen | scripts/migrate_database.py:81 | `part.split('(')[0]`: the longest prefix without '(' |
| Migration.ExtractTableName | scripts/migrate_database.py:72-85 | the loop over the words computes NameFrom |
| Migration.NoParenInKeyword | scripts/migrate_database.py:74-79 | a word matching a keyword holds no '(' |
| Migration.ParenWordIsNoFiller | scripts/migrate_database.py:74-79 | a word with '(' is never skipped as a keyword |
| Migration.NameAfterExists | scripts/migrate_database.py:70-85 | "CREATE TABLE IF NOT EXISTS name (" yields the name |
| Migration.NameBeforeParen | scripts/migrate_database.py:80-82 | "CREATE TABLE name(" yields the name |
| Migration.BeforeParenStops | scripts/migrate_database.py:81 | splitting "name(" at '(' gives the name |
| Migration.SeparateParenGivesEmptyName | scripts/migrate_database.py:73-85 | "CREATE TABLE name (" yields the empty name, since "CREATE" is not skipped and "(" splits to "" |
| Migration.TrimCommas | scripts/migrate_database.py:97 | `rstrip(',')`: a prefix ending in no comma, only commas removed |
| Migration.ColumnOf | scripts/migrate_database.py:97-109 | a column is read exactly when the line has words and starts with no constraint keyword; its name is the first word, its type the second or TEXT, its definition the trimmed line |
| Migration.KeywordPrefixedColumnDropped | scripts/migrate_database.py:98-99 | a column whose name begins with "check" (as any column starting with a constraint keyword) is dropped |
| Migration.Step | scripts/migrate_database.py:66-109 | a table is recorded only at a ")" line inside a named table, with the columns gathered; columns grow only by a parsed column line inside a named table; an empty name ignores its body |
| Migration.StepKeepsOrder | scripts/migrate_database.py:66-109 | a line keeps the recorded tables and their first-seen order in step |
| Migration.ParseAll | scripts/migrate_database.py:58-111 | the recorded tables and their order agree |
| Migration.RecordedTablesStay | scripts/migrate_database.py:92 | a recorded table stays recorded after further lines |
| Migration.ParseLine | scripts/migrate_database.py:67-109 | one iteration of the line loop, as Step states |
| Migration.ParseSchemaTables | scripts/migrate_database.py:58-111 | the parser returns the tables of the schema, each once, in first-seen order |
| Migration.KeptAsWritten | scripts/migrate_database.py:171-174 | every executed statement is non-empty and starts with no "--"; every piece whose stripped text is such is executed |
| Migration.SqlBody | scripts/migrate_database.py:173 | the statement with its comment lines removed is no longer than the statement |
| Migration.Kept | scripts/migrate_database.py:171-176 | a statement is executed exactly when its text is more than comments |
| Migration.CommentedPiece | scripts/migrate_database.py:170-173 | a statement preceded by a comment line is one piece and its body is the statement |
| Migration.AsWrittenSkipsCommentedStatement | scripts/migrate_database.py:173 | as written, a statement preceded by a comment line is never executed |
| Migration.CommentedStatementKept | scripts/migrate_database.py:171-176 | the corrected filter executes such a statement |
| Migration.ReplayStatements | scripts/migrate_database.py:170-182 | the executed statements are the corrected Kept filter of the pieces split at ';' (see Findings) |
| Migration.AlterAll | scripts/migrate_database.py:188-198 | the column loop only adds columns and adds at most one per schema column |
| Migration.AlterAllCovers | scripts/migrate_database.py:188-198 | afterwards every schema column of the table is present |
| Migration.AlterAllCounts | scripts/migrate_database.py:188-198 | every added column is a schema column, and the count is the number of columns added |
| Migration.AlterAllSettled | scripts/migrate_database.py:188-198 | a table with all its schema columns is left alone and counts nothing |
| Migration.AddedCountFrame | scripts/migrate_database.py:185-198 | the count depends only on the existing tables |
| Migration.AddedCountSettles | scripts/migrate_database.py:185-198 | a second migration adds no column |
| Migration.SchemaDb.constructor | scripts/migrate_database.py:148-149 | the database holds the given tables |
| Migration.SchemaDb.AddMissingColumns | scripts/migrate_database.py:187-198 | one table gets AlterAll of its columns and the count |
| Migration.SchemaDb.AddMissingAll | scripts/migrate_database.py:185-198 | every existing schema table gets its missing columns, no other table changes, and the total is AddedCount |
| Migration.MigrateDatabase | scripts/migrate_database.py:114-215 | a missing database is created from the schema; a missing schema aborts with no change; otherwise the statements the corrected comment filter keeps run (see Findings), created tables are added, existing tables gain exactly their missing schema columns, and tables_added is the created set |
| UpdateDefaults.MaxTokensStage | scripts/update_defaults.py:17-22 | a row with user max tokens NULL or 0 and a known cap gets the cap; other rows and columns unchanged |
| UpdateDefaults.ThinkingStage | scripts/update_defaults.py:27-32 | a thinking model with thinking NULL or 0 gets 1; other rows and columns unchanged |
| UpdateDefaults.BudgetStage | scripts/update_defaults.py:37-43 | a thinking model with budget NULL or 0 and a known cap gets the cap; other rows and columns unchanged |
| UpdateDefaults.Apply | scripts/update_defaults.py:17-43 | an UPDATE applies its stage to every row and keeps the ids |
| UpdateDefaults.Matched | scripts/update_defaults.py:23 | rowcount is at most the number of rows |
| UpdateDefaults.DefaultsFill | scripts/update_defaults.py:15-43 | the three updates change only the three user columns, each as its WHERE says |
| UpdateDefaults.ThinkingOnAfterRun | scripts/update_defaults.py:27-32 | after the run every thinking model has thinking enabled |
| UpdateDefaults.DefaultsIdempotent | scripts/update_defaults.py:15-43 | running the script twice leaves the rows as once |
| UpdateDefaults.SecondRunMatchesNothing | scripts/update_defaults.py:15-43 | unless the cap is 0, a second run matches no row |
| UpdateDefaults.ZeroMaximumMatchedAgain | scripts/update_defaults.py:17-22 | a row with cap 0 is matched again on every run, though unchanged |
| UpdateDefaults.TableIdempotent | scripts/update_defaults.py:15-43 | the script is idempotent on the whole table |
| UpdateDefaults.StagesCompose | scripts/update_defaults.py:15-43 | the three UPDATEs in order are the per-row defaults |
| UpdateDefaults.ModelTable.constructor | scripts/update_defaults.py:11 | the table holds the given rows |
| UpdateDefaults.ModelTable.UpdateDatabaseDefaults | scripts/update_defaults.py:9-53 | a failing statement rolls back everything; otherwise the rows get the defaults and the three rowcounts are reported |
| UpdateStocks.NseApply | scripts/update_stocks.py:50-64 | an empty ISIN changes nothing; a new ISIN is inserted with symbol and name and counted; no existing stock changes |
| UpdateStocks.NseAllKeeps | scripts/update_stocks.py:48-69 | over the NSE list the known ISINs stay in step with the table, existing stocks are untouched, and the count is the table's growth |
| UpdateStocks.Filled | scripts/update_stocks.py:114-124 | a missing BSE code is filled; a missing symbol is filled with a non-empty security id; the name is kept |
| UpdateStocks.BseApply | scripts/update_stocks.py:96-140 | an empty ISIN changes nothing; a known stock needing a code or symbol is filled and counted as updated; a new ISIN is inserted with the security id as symbol; nothing is overwritten |
| UpdateStocks.BseAllKeeps | scripts/update_stocks.py:94-145 | over the BSE list nothing set is overwritten, and the count is the table's growth |
| UpdateStocks.UpdateFromNse | scripts/update_stocks.py:34-78 | an unreadable file gives (0, 0) with no change; otherwise the loop computes NseAll |
| UpdateStocks.UpdateFromBse | scripts/update_stocks.py:81-154 | an unreadable file gives (0, 0, 0) with no change; otherwise the loop computes BseAll |
| UpdateStocks.BseRowInto | scripts/update_stocks.py:95-145 | one BSE row on the database, as BseStep states |
| UpdateStocks.DailyUpdate | scripts/update_stocks.py:157-198 | the final table is the NSE pass followed by the BSE pass on the grown known set (NsePass, BsePass); the summary holds the counts of both; the count after is the count before plus both passes' new stocks, and nothing set is overwritten |
| InitDatabase.NseApply | scripts/init_database.py:66-82 | an empty ISIN is skipped; INSERT OR IGNORE inserts a new ISIN and counts a known one as skipped; each row counted once |
| InitDatabase.NseAllCounts | scripts/init_database.py:64-86 | every NSE row is counted once, existing stocks are untouched, and the table grows by the inserted count |
| InitDatabase.BseApply | scripts/init_database.py:114-142 | an empty ISIN is skipped; a known stock without a code gets it and counts as updated, with one it is skipped; a new ISIN is inserted without symbol |
| InitDatabase.BseAllCounts | scripts/init_database.py:112-146 | every BSE row is counted once, no name or symbol changes, a set code stays, and the table grows by the inserted count |
| InitDatabase.LoadNseData | scripts/init_database.py:49-95 | an unreadable file gives zeros with no change; otherwise the loop computes NseAll |
| InitDatabase.LoadBseData | scripts/init_database.py:98-155 | an unreadable file gives zeros with no change; otherwise the loop computes BseAll |
| InitDatabase.Initialize | scripts/init_database.py:158-192 | the final table is the NSE load of a readable NSE file, then the BSE load of a readable BSE file (Loaded); the total is the stocks before plus both inserts, every row of a readable file is counted once, and no stock loses its name or symbol |
| StocklibFiles.Clean | stocklib-app/stocklib_app.py:147 | the substitution keeps the length, keeps safe characters and turns every other into '_' |
| StocklibFiles.CleanIdempotent | stocklib-app/stocklib_app.py:147 | cleaning twice is cleaning once |
| StocklibFiles.SafeKept | stocklib-app/stocklib_app.py:147 | a safe date is unchanged |
| StocklibFiles.IsYear | stocklib-app/stocklib_app.py:145 | `^\d{4}$` matches exactly four digits, optionally followed by one newline; a match is safe but for that newline |
| StocklibFiles.IsYearMonth | stocklib-app/stocklib_app.py:146 | `^\d{4}-\d{2}$` matches exactly four digits, '-', two digits and optionally one newline; such a date is never also a year; a match is safe but for that newline |
| StocklibFiles.FormatFilenameBase | stocklib-app/stocklib_app.py:144-148 | the base is the date part, '_' and the type, one character longer than both; the date part is safe except the trailing newline the `$` of the year patterns lets through |
| StocklibFiles.ShortcutsAgreeWithClean | stocklib-app/stocklib_app.py:145-148 | for a year or year-month date the shortcut returns what cleaning would |
| StocklibFiles.YearNewlineKept | stocklib-app/stocklib_app.py:145 | a year followed by a newline keeps the newline in the file name |
| StocklibFiles.TokenEnd | stocklib-app/stocklib_app.py:132 | `[^";\s]+` runs to the first quote, semicolon or blank |
| StocklibFiles.UtfEnd | stocklib-app/stocklib_app.py:132 | the optional "UTF-d''" or "UTF-dd''" prefix spans seven or eight characters |
| StocklibFiles.MatchAt | stocklib-app/stocklib_app.py:132 | a match captures a non-empty token |
| StocklibFiles.FindAll | stocklib-app/stocklib_app.py:132 | every file name found is a non-empty token |
| StocklibFiles.LastIndex | stocklib-app/stocklib_app.py:135 | the last position of the character, or -1 |
| StocklibFiles.SplitExt | stocklib-app/stocklib_app.py:135 | the extension is a suffix starting with '.' and holding no '/' |
| StocklibFiles.DispositionExt | stocklib-app/stocklib_app.py:130-136 | an extension from the header has 2 to 6 characters and starts with '.' |
| StocklibFiles.TypeExt | stocklib-app/stocklib_app.py:137-141 | the content type gives .pdf, .zip or .csv |
| StocklibFiles.GetExtension | stocklib-app/stocklib_app.py:129-142 | the result is a lower-case extension of 2 to 6 characters |
| StocklibFiles.LowerIdempotent | stocklib-app/stocklib_app.py:136 | lower-casing twice is lower-casing once |
| StocklibFiles.TypeDecides | stocklib-app/stocklib_app.py:137-142 | without a usable header name the content type decides, defaulting to .pdf |
| StocklibFiles.PlainFilenameFound | stocklib-app/stocklib_app.py:132 | "filename=name" yields the name |
| StocklibFiles.QuotedFilenameFound | stocklib-app/stocklib_app.py:132 | a quoted file name yields the name without quotes |
| StocklibFiles.TokenRun | stocklib-app/stocklib_app.py:132 | a token running to the end ends there |
| StocklibFiles.TokenRunTo | stocklib-app/stocklib_app.py:132 | a token ends at its first stop character |
| StocklibFiles.NoMatchInQuote | stocklib-app/stocklib_app.py:132 | fewer characters than "filename=" hold no match |
| StocklibDocs.Shorten | stocklib-app/stocklib_app.py:195 | a name over 60 characters becomes its first 57 and "..."; shorter ones are kept |
| StocklibDocs.CreditRatingLink | stocklib-app/stocklib_app.py:188-197 | a credit rating sorts with date "9999", keeps its url, and shows at most 60 characters |
| StocklibDocs.StrLessIrreflexive | stocklib-app/stocklib_app.py:200 | no date sorts before itself |
| StocklibDocs.StrLessTransitive | stocklib-app/stocklib_app.py:200 | the date order is transitive |
| StocklibDocs.StrLessTotal | stocklib-app/stocklib_app.py:200 | two different dates are ordered |
| StocklibDocs.WithDateAppend | stocklib-app/stocklib_app.py:200 | the links of one date in a concatenation are those of each part |
| StocklibDocs.Insert | stocklib-app/stocklib_app.py:200 | inserting adds exactly the link |
| StocklibDocs.SortNewestFirst | stocklib-app/stocklib_app.py:200 | the sort is a permutation of the links |
| StocklibDocs.InsertSorted | stocklib-app/stocklib_app.py:200 | inserting into a newest-first list keeps it newest first |
| StocklibDocs.NoneWithDate | stocklib-app/stocklib_app.py:200 | a newest-first list whose head is older than a date holds no link of it |
| StocklibDocs.InsertStable | stocklib-app/stocklib_app.py:200 | insertion puts a link after those of its own date |
| StocklibDocs.SortSorted | stocklib-app/stocklib_app.py:200 | the sort is newest first |
| StocklibDocs.SortStable | stocklib-app/stocklib_app.py:200 | the sort is stable: links of one date keep their scraped order |
| StocklibDocs.OfKindMembers | stocklib-app/stocklib_app.py:240-242 | a category list holds exactly the links of that kind |
| StocklibDocs.ListedAndSelected | stocklib-app/stocklib_app.py:240-243 | a link of a known category is listed under it and selected |
| StocklibDocs.Grouped | stocklib-app/stocklib_app.py:237-243 | the grouping has exactly the four categories |
| StocklibDocs.GroupedDocuments | stocklib-app/stocklib_app.py:237-242 | each category holds the links of its kind in sorted order |
| StocklibDocs.GroupedSelections | stocklib-app/stocklib_app.py:238-243 | exactly the urls of listed links are selected, all true |
| StocklibDocs.ToggledIs | stocklib-app/stocklib_app.py:216-217 | the category's urls take the value, other selections are kept |
| StocklibDocs.ToggledWidgetsAre | stocklib-app/stocklib_app.py:219-220 | only existing widgets of the category's urls take the value |
| StocklibDocs.Session.constructor | stocklib-app/stocklib_app.py:204-209 | no search yet, four empty categories, no selections |
| StocklibDocs.Session.PerformSearch | stocklib-app/stocklib_app.py:222-252 | an empty ticker is refused with no change; a failed fetch clears search_performed; otherwise documents and selections are the grouped sorted links and the select-all flags are true |
| StocklibDocs.Session.ToggleCategory | stocklib-app/stocklib_app.py:213-220 | the category's urls are selected with the value, and existing widgets of them show it; nothing else changes |

## Left out

- Threads, the blocking `brpop` and the `_run` loops' sleeps are not modelled. One loop iteration is one atomic step, and two workers never race. SQLite transactions are reduced to "all of a step's writes or none".
- Time is one integer clock in seconds. The code compares local `datetime.now()` values and ISO strings with SQLite's UTC `CURRENT_TIMESTAMP`; timezones, string ordering of timestamps and `updated_at`/`created_at` columns are not modelled. `ORDER BY created_at` is modelled as id order.
- TranscriptFetcher.ProcessJob: an offset-aware event time makes `_compute_next_check` raise TypeError in the source; with an integer clock the model computes the cadence instead.
- The language model, SMTP, the transcript provider, PDF download and screener.in scraping are parameters giving each call's success or failure; the provider SDK wrappers and their float cost arithmetic (llm_service.py:149-153) are not modelled.
- Queue keys use an opaque prefix; the Redis URL and connection set-up are not modelled.
- `get_status`/`get_poll_status` reporting, logging and `print` are not modelled.
- Text.Upper and Text.Lower change ASCII letters only, and the regular-expression classes `\w`, `\d` are ASCII; Python's Unicode case mapping is not modelled.
- LlmService.LlmGateway.GetProvider: provider objects are values (kind and key); the cache is never evicted except by `set_api_key`, as in the source.
- `LLMService.get_available_models` and the Flask routes' CRUD, HTML and PDF rendering are not modelled.
- Migration.MigrateDatabase: the backup copy, reading the schema file and `executescript` on a fresh database are not modelled; a statement's effect on the tables is the `created` parameter, and SQLite's own ALTER restrictions are not modelled.
- Migration.ParseSchemaTables: Python dict order is modelled as the `order` sequence of first insertion.
- UpdateDefaults.SecondRunMatchesNothing: holds only when `max_output_tokens` is not 0; a row with cap 0 is matched again on every run (ZeroMaximumMatchedAgain), though its values do not change.
- CSV files are given as sequences of rows with optional cells; reading errors other than an unreadable file are not modelled, and `INSERT OR IGNORE` conflicts are on the ISIN only, which the model takes as the key of the `stocks` table.
- `create_database` of scripts/init_database.py is not modelled: the loads start from the given table.
- StocklibFiles.GetExtension: `urllib.parse.unquote` is a parameter.
- StocklibDocs.Session.PerformSearch: the page fetch and BeautifulSoup parsing are the `scrape` parameter; the random user agent, Selenium, zip download and the Streamlit widgets other than the selection state are not modelled, nor is stocklib-app/debug_screener.py.
- Encryption, configuration, DDL and connection plumbing (backend/config.py, backend/db.py, scripts/migrate_db.py) are not modelled; the uniqueness constraints of backend/config.py appear as invariants of the tables.
- The legacy threaded pipeline of backend/services/analysis_worker.py is modelled only as the call `start_analysis_job`, which returns a job name or raises.
- GenerateAndCommit, ProcessJob (of AnalysisWorker), DecideRun and ProcessRun: the model call is the corrected one without `task_type`; as written it always raises TypeError (first Findings row, CallSites.CallAsWrittenAlwaysRaises), so every job and run fails there.
- LegacyScheduler.Record, RecordAvailable and ProcessStock: the auto-analysis attempt is the three-argument call as written (second Findings row, CallSites.AutoAnalysisCallAlwaysRaises); it always raises, and `_process_stock` catches and prints the error, so the legacy scheduler never starts a job. The corrected call, CallSites.StartCallStarts, is proved but not used by the scheduler.
- ReplayStatements and MigrateDatabase: the statements kept are those of the corrected comment filter; as written a piece that starts with a "--" line is skipped whole (last Findings row, Migration.AsWrittenSkipsCommentedStatement).
- Which pushes of one call the Redis server does not answer is a parameter (`down`, and `Outage` for a scheduler pass) giving their positions within the call; the cause of an outage is not modelled.
- The check, analysis and email sweeps write their lease UPDATEs together at the COMMIT that follows the last push; since no other connection reads them earlier, only the committed result is modelled.
- QueueScheduler.Top breaks ties in the ORDER BY by id, where SQLite leaves the order of equal rows unspecified.
- QueueService.IdField accepts only an integer id; a truthy id of another type, such as the text "5", is dropped, while the source would pass it to `_process_job`. The producers write integer ids only.
- Store.Database has one id counter shared by all tables, so ids of different tables never coincide; SQLite keeps one sequence per table. No contract depends on ids of different tables being equal.
- TranscriptService.UrlSplit follows Python 3.12's `urlsplit` for the inputs the sanitiser passes: the check that a bracketed host is a valid IPv6 or IPvFuture address and the NFKC check for non-ASCII netlocs are not modelled.

## Findings

| source | as written | input that shows it | evidently intended | confidence | as-written member | corrected member |
|---|---|---|---|---|---|---|
| backend/services/analysis_queue_worker.py:136-142 | the worker and group research call `generate(..., task_type=...)`, a keyword `generate` does not accept | any analysis job or group run that reaches the model call | call `generate` with its own parameters only | not executed | CallSites.CallAsWrittenAlwaysRaises | CallSites.CorrectedCallPassesThrough |
| backend/services/scheduler_service.py:122 | auto-analysis calls `start_analysis_job(stock_id, quarter, year)` on a method taking one argument | any newly available transcript of the latest quarter | start the job for the stock | not executed | CallSites.AutoAnalysisCallAlwaysRaises | CallSites.StartCallStarts |
| backend/app.py:1315 | the route calls `start_analysis_job(stock_id, quarter=, year=, force=)` | any valid POST to /api/analyze/<id> for an existing stock | answer 202 with the started job | not executed | AppHelpers.TriggerAnalysisNeverStarts | AppHelpers.TriggerAnalysis |
| backend/app.py:36-51 | the poll routes call `trigger_poll` and `get_poll_status`, which the scheduler service does not define | any request to /api/poll/trigger or /api/poll/status | start a poll or report its state | not executed | AppHelpers.PollRoutesAlwaysFail | AppHelpers.PollRoutesWithMethods |
| scripts/migrate_database.py:173 | a piece that starts with a "--" comment line is skipped whole, including the statement after the comment | "--\nCREATE TABLE t (x)" between semicolons | skip only comment-only pieces | not executed | Migration.AsWrittenSkipsCommentedStatement | Migration.CommentedStatementKept |
