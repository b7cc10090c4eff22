/**
 * The analysis consumer (backend/services/analysis_queue_worker.py): take an
 * "analysis" message, claim the job row with a two-hour lease, validate the
 * transcript and stock, generate the analysis, store it, mark transcript and
 * job done, then fan out emails. Any failure after the claim lands in one
 * handler that classifies the message as terminal (`error`) or retryable
 * (`retrying` with backoff) and marks the transcript's analysis as failed.
 */
module AnalysisWorker {
  import opened Wrappers
  import opened Store
  import opened CallSites
  import QueueService
  import RetryUtils
  import Text
  import PromptService
  import EmailOutbox

  const ClaimLeaseSeconds: int := 7200
  const ErrorTextLimit: nat := 500
  const MessageField: string := "analysis_job_id"

  /** What one `_process_job` call did. */
  datatype JobOutcome = Skipped | Completed(analysisId: int) | Failed(message: string)

  /** The five validation messages the handler treats as terminal. */
  predicate NonRetryable(message: string) {
    message in {"Stock not in watchlist", "Stock belongs to active group",
                "Transcript not available for analysis", "Transcript not found", "Stock not found"}
  }

  /** The row after the claim UPDATE. */
  function ClaimedJob(j: Job, now: int): Job {
    j.(status := InProgress, lockedUntil := Some(now + ClaimLeaseSeconds))
  }

  /** The row after the closing UPDATE of a successful run. */
  function DoneJob(j: Job): Job {
    j.(status := Done, retryNextAt := None, lockedUntil := None)
  }

  /** The row the exception handler writes, from the row it reads back. */
  function FailedJob(j: Job, message: string, now: int, jitter: nat): Job
    requires jitter <= RetryUtils.JitterBound(RetryUtils.DefaultBase)
  {
    var attempts := j.attempts + 1;
    j.(status := if NonRetryable(message) then Error else Retrying,
       attempts := attempts,
       retryNextAt := if NonRetryable(message) then None
                      else Some(now + RetryUtils.ComputeBackoffSeconds(attempts, jitter, RetryUtils.DefaultBase, RetryUtils.DefaultMax)),
       lockedUntil := None)
  }

  /**
   * Every failure counts one more attempt and frees the lease; the five
   * validation messages are terminal with no retry time, any other message
   * is retried between one and about sixty minutes later.
   */
  lemma FailureClassification(j: Job, message: string, now: int, jitter: nat)
    requires jitter <= RetryUtils.JitterBound(RetryUtils.DefaultBase)
    requires j.attempts >= 0
    ensures var r := FailedJob(j, message, now, jitter);
      && r.attempts == j.attempts + 1 && r.lockedUntil.None?
      && (r.status == Error <==> NonRetryable(message))
      && (r.status == Retrying <==> !NonRetryable(message))
      && (NonRetryable(message) ==> r.retryNextAt.None?)
      && (!NonRetryable(message) ==> r.retryNextAt.Some? && now + 60 <= r.retryNextAt.value <= now + 3630)
      && r.transcriptId == j.transcriptId && r.idempotencyKey == j.idempotencyKey && r.force == j.force
  {
    RetryUtils.BackoffAtLeastBase(j.attempts + 1, jitter, RetryUtils.DefaultBase, RetryUtils.DefaultMax);
    RetryUtils.DefaultBackoffAtMost3630(j.attempts + 1, jitter);
  }

  /** The checks between the claim and the generation, in the order the source makes them. */
  function ValidationError(db: Database, transcriptId: int): (r: Option<string>)
    reads db`transcripts, db`stocks, db`watchlist, db`groups, db`groupStocks
    ensures r.Some? ==> NonRetryable(r.value)
    ensures r.None? <==>
      && transcriptId in db.transcripts
      && db.transcripts[transcriptId].status == Available
      && HasText(db.transcripts[transcriptId].sourceUrl)
      && db.transcripts[transcriptId].stockId in db.stocks
      && db.transcripts[transcriptId].stockId in db.watchlist
      && !db.InActiveGroup(db.transcripts[transcriptId].stockId)
  {
    if transcriptId !in db.transcripts then Some("Transcript not found")
    else
      var t := db.transcripts[transcriptId];
      if t.status != Available || !HasText(t.sourceUrl) then Some("Transcript not available for analysis")
      else if t.stockId !in db.stocks then Some("Stock not found")
      else if t.stockId !in db.watchlist then Some("Stock not in watchlist")
      else if db.InActiveGroup(t.stockId) then Some("Stock belongs to active group")
      else None
  }

  /** The message the handler sees: the first failing step's, or None when every step succeeds. */
  function FailureMessage(validation: Option<string>, llm: LlmOutcome, fanOutError: Option<string>): Option<string> {
    if validation.Some? then validation
    else if llm.Raised? then Some(llm.message)
    else fanOutError
  }

  /** A transcript row after an analysis_status UPDATE (updated_at becomes the clock). */
  function WithAnalysisStatus(t: Transcript, status: JobStatus, error: Option<string>, now: int): Transcript {
    t.(analysisStatus := Some(status), analysisError := error, updatedAt := Some(now))
  }

  /** The transcript_analyses ids a forced run deletes: the transcript's other analyses. */
  function Superseded(analyses: map<int, Analysis>, transcriptId: int, keep: int): set<int> {
    set a | a in analyses && analyses[a].transcriptId == transcriptId && a != keep
  }

  function WithoutAnalyses(analyses: map<int, Analysis>, drop: set<int>): map<int, Analysis> {
    map a | a in analyses && a !in drop :: analyses[a]
  }

  /** ON DELETE CASCADE from transcript_analyses to email_outbox. */
  function WithoutOutboxOf(outbox: map<int, OutboxRow>, drop: set<int>): map<int, OutboxRow> {
    map o | o in outbox && outbox[o].analysisId !in drop :: outbox[o]
  }

  /** After a forced run the new analysis is the transcript's only one, and no other transcript's is touched. */
  lemma ForcedRunKeepsOnlyNew(analyses: map<int, Analysis>, transcriptId: int, keep: int, a: Analysis)
    requires a.transcriptId == transcriptId && keep !in analyses
    ensures var after := WithoutAnalyses(analyses[keep := a], Superseded(analyses, transcriptId, keep));
      && keep in after && after[keep] == a
      && (forall x :: x in after && after[x].transcriptId == transcriptId ==> x == keep)
      && (forall x :: x in analyses && analyses[x].transcriptId != transcriptId ==> x in after && after[x] == analyses[x])
  {
  }

  /**
   * The analysis stored under `analysisId`; a forced run leaves it the
   * transcript's only analysis, an unforced one keeps every earlier analysis.
   */
  ghost predicate AnalysisStored(before: map<int, Analysis>, after: map<int, Analysis>, analysisId: int, a: Analysis, force: bool) {
    && analysisId in after && after[analysisId] == a
    && (force ==> forall x :: x in after && after[x].transcriptId == a.transcriptId ==> x == analysisId)
    && (!force ==> forall x :: x in before ==> x in after && after[x] == before[x])
  }

  /** The outbox once the analysis is stored: a forced run's DELETE cascades to the superseded analyses' rows. */
  function OutboxAfterStore(outbox: map<int, OutboxRow>, analyses: map<int, Analysis>, transcriptId: int,
                            analysisId: int, force: bool): map<int, OutboxRow>
  {
    if force then WithoutOutboxOf(outbox, Superseded(analyses, transcriptId, analysisId)) else outbox
  }

  /**
   * The writes committed before the fan-out, and nothing after them: the
   * analysis stored under the next id, and the outbox as the forced DELETE
   * left it.
   */
  ghost predicate StoredOnly(analyses0: map<int, Analysis>, analyses: map<int, Analysis>, outbox0: map<int, OutboxRow>,
                             outbox: map<int, OutboxRow>, nextId0: int, nextId: int, a: Analysis, force: bool) {
    && nextId == nextId0 + 1
    && AnalysisStored(analyses0, analyses, nextId0, a, force)
    && outbox == OutboxAfterStore(outbox0, analyses0, a.transcriptId, nextId0, force)
  }

  /** Every active recipient has an outbox row for the analysis. */
  ghost predicate FannedOut(outbox: map<int, OutboxRow>, analysisId: int, recipients: seq<string>) {
    forall k :: 0 <= k < |recipients| ==> EmailOutbox.PairPresent(outbox, analysisId, recipients[k])
  }

  /** The handler's two writes: the job row from the row read back, and the transcript's analysis marked `error`. */
  ghost predicate FailedWrites(jobs0: map<int, Job>, jobs: map<int, Job>, ts0: map<int, Transcript>, ts: map<int, Transcript>,
                               jobId: int, transcriptId: int, message: string, now: int, jitter: nat) {
    && jobId in jobs0 && jitter <= RetryUtils.JitterBound(RetryUtils.DefaultBase)
    && jobs == jobs0[jobId := FailedJob(jobs0[jobId], message, now, jitter)]
    && ts == if transcriptId in ts0
       then ts0[transcriptId := WithAnalysisStatus(ts0[transcriptId], Error, Some(Text.Take(message, ErrorTextLimit)), now)]
       else ts0
  }

  /** The two closing UPDATEs of a successful run. */
  ghost predicate DoneWrites(jobs0: map<int, Job>, jobs: map<int, Job>, ts0: map<int, Transcript>, ts: map<int, Transcript>,
                             jobId: int, transcriptId: int, now: int) {
    && jobId in jobs0 && transcriptId in ts0
    && jobs == jobs0[jobId := DoneJob(jobs0[jobId])]
    && ts == ts0[transcriptId := WithAnalysisStatus(ts0[transcriptId], Done, None, now)]
  }

  /** The handler rewrites every column the closing UPDATEs wrote, so a fan-out failure leaves no trace of them. */
  lemma DoneThenFailed(jobs0: map<int, Job>, jobs1: map<int, Job>, jobs2: map<int, Job>,
                       ts0: map<int, Transcript>, ts1: map<int, Transcript>, ts2: map<int, Transcript>,
                       jobId: int, transcriptId: int, message: string, now: int, jitter: nat)
    requires DoneWrites(jobs0, jobs1, ts0, ts1, jobId, transcriptId, now)
    requires FailedWrites(jobs1, jobs2, ts1, ts2, jobId, transcriptId, message, now, jitter)
    ensures FailedWrites(jobs0, jobs2, ts0, ts2, jobId, transcriptId, message, now, jitter)
  {
    assert FailedJob(DoneJob(jobs0[jobId]), message, now, jitter) == FailedJob(jobs0[jobId], message, now, jitter);
  }

  /** Marking the transcript `in_progress` leaves no trace once the run ends either way. */
  lemma InProgressForgotten(jobs0: map<int, Job>, jobs: map<int, Job>,
                            ts0: map<int, Transcript>, ts1: map<int, Transcript>, ts: map<int, Transcript>,
                            jobId: int, transcriptId: int, message: string, now: int, jitter: nat)
    requires transcriptId in ts0
    requires ts1 == ts0[transcriptId := WithAnalysisStatus(ts0[transcriptId], InProgress, None, now)]
    ensures FailedWrites(jobs0, jobs, ts1, ts, jobId, transcriptId, message, now, jitter) ==>
      FailedWrites(jobs0, jobs, ts0, ts, jobId, transcriptId, message, now, jitter)
    ensures DoneWrites(jobs0, jobs, ts1, ts, jobId, transcriptId, now) ==>
      DoneWrites(jobs0, jobs, ts0, ts, jobId, transcriptId, now)
  {
  }

  /** The handler and the closing UPDATE rewrite every column the claim wrote. */
  lemma ClaimForgotten(jobs0: map<int, Job>, jobs1: map<int, Job>, jobs: map<int, Job>,
                       ts0: map<int, Transcript>, ts: map<int, Transcript>,
                       jobId: int, transcriptId: int, message: string, now: int, jitter: nat)
    requires jobId in jobs0 && jobs1 == jobs0[jobId := ClaimedJob(jobs0[jobId], now)]
    ensures FailedWrites(jobs1, jobs, ts0, ts, jobId, transcriptId, message, now, jitter) ==>
      FailedWrites(jobs0, jobs, ts0, ts, jobId, transcriptId, message, now, jitter)
    ensures DoneWrites(jobs1, jobs, ts0, ts, jobId, transcriptId, now) ==>
      DoneWrites(jobs0, jobs, ts0, ts, jobId, transcriptId, now)
  {
    if FailedWrites(jobs1, jobs, ts0, ts, jobId, transcriptId, message, now, jitter) {
      assert FailedJob(ClaimedJob(jobs0[jobId], now), message, now, jitter) == FailedJob(jobs0[jobId], message, now, jitter);
    }
  }

  /** The claim: `in_progress` with a two-hour lease before anything else is looked at. */
  method Claim(db: Database, jobId: int, now: int)
    requires db.Valid() && jobId in db.jobs
    modifies db`jobs
    ensures db.Valid()
    ensures db.jobs == old(db.jobs)[jobId := ClaimedJob(old(db.jobs[jobId]), now)]
  {
    db.jobs := db.jobs[jobId := ClaimedJob(db.jobs[jobId], now)];
  }

  /** The UPDATE that marks the transcript's analysis `in_progress` before the model is called. */
  method MarkInProgress(db: Database, transcriptId: int, now: int)
    requires db.Valid() && transcriptId in db.transcripts
    modifies db`transcripts
    ensures db.Valid()
    ensures db.transcripts == old(db.transcripts)[transcriptId := WithAnalysisStatus(old(db.transcripts[transcriptId]), InProgress, None, now)]
  {
    db.transcripts := db.transcripts[transcriptId := WithAnalysisStatus(db.transcripts[transcriptId], InProgress, None, now)];
  }

  /** The exception handler: job row from the row read back, transcript marked `error` with the first 500 characters. */
  method Fail(db: Database, jobId: int, transcriptId: int, message: string, now: int, jitter: nat)
    requires db.Valid() && jobId in db.jobs
    requires jitter <= RetryUtils.JitterBound(RetryUtils.DefaultBase)
    modifies db`jobs, db`transcripts
    ensures db.Valid()
    ensures FailedWrites(old(db.jobs), db.jobs, old(db.transcripts), db.transcripts, jobId, transcriptId, message, now, jitter)
  {
    db.jobs := db.jobs[jobId := FailedJob(db.jobs[jobId], message, now, jitter)];
    if transcriptId in db.transcripts {
      db.transcripts := db.transcripts[transcriptId :=
        WithAnalysisStatus(db.transcripts[transcriptId], Error, Some(Text.Take(message, ErrorTextLimit)), now)];
    }
  }

  /** INSERT of the analysis, then for a forced job the DELETE of the transcript's other analyses. */
  method RecordAnalysis(db: Database, a: Analysis, force: bool) returns (analysisId: int)
    requires db.Valid()
    modifies db`analyses, db`outbox, db`nextId
    ensures db.Valid()
    ensures analysisId == old(db.nextId) && db.nextId == analysisId + 1
    ensures db.analyses == if force
      then WithoutAnalyses(old(db.analyses)[analysisId := a], Superseded(old(db.analyses), a.transcriptId, analysisId))
      else old(db.analyses)[analysisId := a]
    ensures db.outbox == OutboxAfterStore(old(db.outbox), old(db.analyses), a.transcriptId, analysisId, force)
    ensures AnalysisStored(old(db.analyses), db.analyses, analysisId, a, force)
  {
    var before := db.analyses;
    ForcedRunKeepsOnlyNew(before, a.transcriptId, db.nextId, a);
    analysisId := db.FreshId();
    db.analyses := db.analyses[analysisId := a];
    if force {
      var drop := Superseded(before, a.transcriptId, analysisId);
      db.analyses := WithoutAnalyses(db.analyses, drop);
      db.outbox := WithoutOutboxOf(db.outbox, drop);
    }
  }

  /** The two closing UPDATEs of a successful run. */
  method MarkDone(db: Database, jobId: int, transcriptId: int, now: int)
    requires db.Valid() && jobId in db.jobs && transcriptId in db.transcripts
    modifies db`jobs, db`transcripts
    ensures db.Valid()
    ensures DoneWrites(old(db.jobs), db.jobs, old(db.transcripts), db.transcripts, jobId, transcriptId, now)
  {
    db.transcripts := db.transcripts[transcriptId := WithAnalysisStatus(db.transcripts[transcriptId], Done, None, now)];
    db.jobs := db.jobs[jobId := DoneJob(db.jobs[jobId])];
  }

  /**
   * The end of a run whose model call succeeded: the analysis is stored and
   * transcript and job are committed `done` before the fan-out, so a fan-out
   * failure still reaches the handler and overwrites both.
   */
  method CommitAndFanOut(db: Database, queue: QueueService.Queue, jobId: int, a: Analysis, now: int,
                         fanOutError: Option<string>, jitter: nat, down: set<nat>)
    returns (outcome: JobOutcome)
    requires db.Valid() && jobId in db.jobs
    requires a.transcriptId == db.jobs[jobId].transcriptId && a.transcriptId in db.transcripts
    requires jitter <= RetryUtils.JitterBound(RetryUtils.DefaultBase)
    modifies db`jobs, db`transcripts, db`analyses, db`outbox, db`nextId, queue`lists
    ensures db.Valid()
    ensures outcome.Failed? <==> fanOutError.Some?
    ensures !outcome.Skipped?
    ensures outcome.Failed? ==>
      && outcome.message == fanOutError.value
      && FailedWrites(old(db.jobs), db.jobs, old(db.transcripts), db.transcripts, jobId, a.transcriptId, outcome.message, now, jitter)
      && queue.lists == old(queue.lists)
      && StoredOnly(old(db.analyses), db.analyses, old(db.outbox), db.outbox, old(db.nextId), db.nextId, a, old(db.jobs[jobId]).force)
    ensures outcome.Completed? ==>
      && outcome.analysisId == old(db.nextId)
      && DoneWrites(old(db.jobs), db.jobs, old(db.transcripts), db.transcripts, jobId, a.transcriptId, now)
      && AnalysisStored(old(db.analyses), db.analyses, outcome.analysisId, a, old(db.jobs[jobId]).force)
      && FannedOut(db.outbox, outcome.analysisId, db.recipients)
    ensures outcome.Completed? ==>
      queue.Pending("email") ==
        old(queue.Pending("email")) + EmailOutbox.AnsweredMessages(queue.available, down, outcome.analysisId + 1, db.nextId)
    ensures forall name :: name != "email" ==> queue.Pending(name) == old(queue.Pending(name))
  {
    ghost var jobs0, ts0 := db.jobs, db.transcripts;
    var analysisId := RecordAnalysis(db, a, db.jobs[jobId].force);
    MarkDone(db, jobId, a.transcriptId, now);
    if fanOutError.Some? {
      ghost var jobs1, ts1 := db.jobs, db.transcripts;
      Fail(db, jobId, a.transcriptId, fanOutError.value, now, jitter);
      DoneThenFailed(jobs0, jobs1, db.jobs, ts0, ts1, db.transcripts, jobId, a.transcriptId, fanOutError.value, now, jitter);
      return Failed(fanOutError.value);
    }
    var _ := EmailOutbox.EnqueueForAnalysis(db, queue, analysisId, now, down);
    outcome := Completed(analysisId);
  }

  /** The corrected `generate_analysis` call: its keywords are all accepted, so the model's outcome comes back unchanged. */
  method Generate(llm: LlmOutcome) returns (response: LlmOutcome)
    ensures response == llm
  {
    CorrectedCallPassesThrough(llm);
    response := CallGenerate(GenerateCall, llm);
  }

  /**
   * The part of _process_job after validation succeeded: the transcript is
   * marked `in_progress`, the prompt resolved, the model called, and the
   * analysis stored and committed before the fan-out, whose failure still
   * reaches the handler.
   */
  method GenerateAndCommit(db: Database, queue: QueueService.Queue, jobId: int, now: int,
                           llm: LlmOutcome, fanOutError: Option<string>, jitter: nat, down: set<nat>)
    returns (outcome: JobOutcome)
    requires db.Valid() && jobId in db.jobs
    requires ValidationError(db, db.jobs[jobId].transcriptId).None?
    requires jitter <= RetryUtils.JitterBound(RetryUtils.DefaultBase)
    modifies db`jobs, db`transcripts, db`analyses, db`outbox, db`nextId, queue`lists
    ensures db.Valid()
    ensures !outcome.Skipped?
    ensures outcome.Failed? <==> FailureMessage(None, llm, fanOutError).Some?
    ensures outcome.Failed? ==>
      && outcome.message == FailureMessage(None, llm, fanOutError).value
      && FailedWrites(old(db.jobs), db.jobs, old(db.transcripts), db.transcripts, jobId, old(db.jobs[jobId]).transcriptId,
                      outcome.message, now, jitter)
      && queue.lists == old(queue.lists)
    ensures llm.Raised? ==> db.analyses == old(db.analyses) && db.outbox == old(db.outbox) && db.nextId == old(db.nextId)
    ensures llm.Generated? && outcome.Failed? ==>
      var j := old(db.jobs[jobId]);
      StoredOnly(old(db.analyses), db.analyses, old(db.outbox), db.outbox, old(db.nextId), db.nextId,
                 Analysis(j.transcriptId, llm.output, llm.provider, llm.modelId,
                          PromptService.ResolvePrompt(old(db.groups), old(db.groupStocks), old(db.transcripts[j.transcriptId]).stockId,
                                                      old(db.defaultPromptSetting))), j.force)
    ensures outcome.Completed? ==>
      var j := old(db.jobs[jobId]);
      && outcome.analysisId == old(db.nextId)
      && DoneWrites(old(db.jobs), db.jobs, old(db.transcripts), db.transcripts, jobId, j.transcriptId, now)
      && AnalysisStored(old(db.analyses), db.analyses, outcome.analysisId,
           Analysis(j.transcriptId, llm.output, llm.provider, llm.modelId,
                    PromptService.ResolvePrompt(old(db.groups), old(db.groupStocks), old(db.transcripts[j.transcriptId]).stockId,
                                                old(db.defaultPromptSetting))), j.force)
      && FannedOut(db.outbox, outcome.analysisId, db.recipients)
    ensures outcome.Completed? ==>
      queue.Pending("email") ==
        old(queue.Pending("email")) + EmailOutbox.AnsweredMessages(queue.available, down, outcome.analysisId + 1, db.nextId)
    ensures forall name :: name != "email" ==> queue.Pending(name) == old(queue.Pending(name))
  {
    var transcriptId := db.jobs[jobId].transcriptId;
    var stockId := db.transcripts[transcriptId].stockId;
    ghost var jobs0, ts0 := db.jobs, db.transcripts;
    MarkInProgress(db, transcriptId, now);
    ghost var ts1 := db.transcripts;
    var prompt := PromptService.ResolvePrompt(db.groups, db.groupStocks, stockId, db.defaultPromptSetting);
    var response := Generate(llm);
    if response.Raised? {
      Fail(db, jobId, transcriptId, response.message, now, jitter);
      InProgressForgotten(jobs0, db.jobs, ts0, ts1, db.transcripts, jobId, transcriptId, response.message, now, jitter);
      return Failed(response.message);
    }
    var a := Analysis(transcriptId, response.output, response.provider, response.modelId, prompt);
    outcome := CommitAndFanOut(db, queue, jobId, a, now, fanOutError, jitter, down);
    InProgressForgotten(jobs0, db.jobs, ts0, ts1, db.transcripts, jobId, transcriptId,
                        if outcome.Failed? then outcome.message else "", now, jitter);
  }

  /** The tables `_process_job` reads and writes, and the validation verdict, as a call finds them. */
  datatype Before = Before(jobs: map<int, Job>, transcripts: map<int, Transcript>, analyses: map<int, Analysis>,
                           outbox: map<int, OutboxRow>, nextId: int, invalid: Option<string>)

  function BeforeJob(db: Database, jobId: int): Before
    reads db
  {
    Before(db.jobs, db.transcripts, db.analyses, db.outbox, db.nextId,
           if jobId in db.jobs then ValidationError(db, db.jobs[jobId].transcriptId) else None)
  }

  /**
   * What `_process_job(jobId)` leaves in the tables it found as `b`: a
   * missing or done job is skipped with nothing written; otherwise the
   * first failing step (validation, the model call, the fan-out) decides
   * the handler's writes, and a run without failure stores the analysis,
   * marks transcript and job done and fans the emails out.
   */
  ghost predicate JobProcessed(b: Before, db: Database, jobId: int, now: int, llm: LlmOutcome,
                               fanOutError: Option<string>, jitter: nat, outcome: JobOutcome)
    reads db
  {
    && (outcome.Skipped? <==> jobId !in b.jobs || b.jobs[jobId].status == Done)
    && (outcome.Skipped? ==>
          && db.jobs == b.jobs && db.transcripts == b.transcripts && db.analyses == b.analyses
          && db.outbox == b.outbox && db.nextId == b.nextId)
    && (!outcome.Skipped? ==>
          var failure := FailureMessage(b.invalid, llm, fanOutError);
          && (outcome.Failed? <==> failure.Some?)
          && (outcome.Failed? ==>
                && outcome.message == failure.value
                && FailedWrites(b.jobs, db.jobs, b.transcripts, db.transcripts, jobId, b.jobs[jobId].transcriptId,
                                outcome.message, now, jitter)
                && (b.invalid.Some? || llm.Raised? ==>
                      db.analyses == b.analyses && db.outbox == b.outbox && db.nextId == b.nextId)
                && (b.invalid.None? && llm.Generated? ==>
                      var j := b.jobs[jobId];
                      && j.transcriptId in b.transcripts
                      && StoredOnly(b.analyses, db.analyses, b.outbox, db.outbox, b.nextId, db.nextId,
                        Analysis(j.transcriptId, llm.output, llm.provider, llm.modelId,
                                 PromptService.ResolvePrompt(db.groups, db.groupStocks, b.transcripts[j.transcriptId].stockId,
                                                             db.defaultPromptSetting)), j.force)))
          && (outcome.Completed? ==>
                var j := b.jobs[jobId];
                && llm.Generated?
                && outcome.analysisId == b.nextId
                && DoneWrites(b.jobs, db.jobs, b.transcripts, db.transcripts, jobId, j.transcriptId, now)
                && AnalysisStored(b.analyses, db.analyses, outcome.analysisId,
                     Analysis(j.transcriptId, llm.output, llm.provider, llm.modelId,
                              PromptService.ResolvePrompt(db.groups, db.groupStocks, b.transcripts[j.transcriptId].stockId,
                                                          db.defaultPromptSetting)), j.force)
                && FannedOut(db.outbox, outcome.analysisId, db.recipients)))
  }

  /**
   * _process_job. `llm` is what downloading the transcript and calling the
   * model yield (a response or the text of the exception either raised),
   * `fanOutError` whether the email fan-out raised, `jitter` the drawn
   * backoff jitter, `down` the positions of the fan-out's pushes the queue
   * server does not answer. The model call is the corrected one (`Generate`).
   */
  method ProcessJob(db: Database, queue: QueueService.Queue, jobId: int, now: int,
                    llm: LlmOutcome, fanOutError: Option<string>, jitter: nat, down: set<nat>)
    returns (outcome: JobOutcome)
    requires db.Valid()
    requires jitter <= RetryUtils.JitterBound(RetryUtils.DefaultBase)
    modifies db`jobs, db`transcripts, db`analyses, db`outbox, db`nextId, queue`lists
    ensures db.Valid()
    ensures JobProcessed(old(BeforeJob(db, jobId)), db, jobId, now, llm, fanOutError, jitter, outcome)
    ensures !outcome.Completed? ==> queue.lists == old(queue.lists)
    ensures outcome.Completed? ==>
      queue.Pending("email") ==
        old(queue.Pending("email")) + EmailOutbox.AnsweredMessages(queue.available, down, outcome.analysisId + 1, db.nextId)
    ensures forall name :: name != "email" ==> queue.Pending(name) == old(queue.Pending(name))
  {
    if jobId !in db.jobs || db.jobs[jobId].status == Done {
      return Skipped;
    }
    var invalid := ValidationError(db, db.jobs[jobId].transcriptId);
    if invalid.Some? {
      Reject(db, jobId, invalid.value, now, jitter);
      return Failed(invalid.value);
    }
    outcome := ClaimAndGenerate(db, queue, jobId, now, llm, fanOutError, jitter, down);
  }

  /**
   * The claim, then the handler for a job whose validation failed; the
   * validation reads no column the claim writes.
   */
  method Reject(db: Database, jobId: int, message: string, now: int, jitter: nat)
    requires db.Valid() && jobId in db.jobs
    requires jitter <= RetryUtils.JitterBound(RetryUtils.DefaultBase)
    modifies db`jobs, db`transcripts
    ensures db.Valid()
    ensures FailedWrites(old(db.jobs), db.jobs, old(db.transcripts), db.transcripts, jobId, old(db.jobs[jobId]).transcriptId,
                         message, now, jitter)
  {
    var transcriptId := db.jobs[jobId].transcriptId;
    ghost var jobs0 := db.jobs;
    Claim(db, jobId, now);
    ghost var jobs1 := db.jobs;
    Fail(db, jobId, transcriptId, message, now, jitter);
    ClaimForgotten(jobs0, jobs1, db.jobs, old(db.transcripts), db.transcripts, jobId, transcriptId, message, now, jitter);
  }

  /** The claim, then everything after a validation that succeeded. */
  method ClaimAndGenerate(db: Database, queue: QueueService.Queue, jobId: int, now: int,
                          llm: LlmOutcome, fanOutError: Option<string>, jitter: nat, down: set<nat>)
    returns (outcome: JobOutcome)
    requires db.Valid() && jobId in db.jobs && db.jobs[jobId].status != Done
    requires ValidationError(db, db.jobs[jobId].transcriptId).None?
    requires jitter <= RetryUtils.JitterBound(RetryUtils.DefaultBase)
    modifies db`jobs, db`transcripts, db`analyses, db`outbox, db`nextId, queue`lists
    ensures db.Valid()
    ensures JobProcessed(old(BeforeJob(db, jobId)), db, jobId, now, llm, fanOutError, jitter, outcome)
    ensures !outcome.Completed? ==> queue.lists == old(queue.lists)
    ensures outcome.Completed? ==>
      queue.Pending("email") ==
        old(queue.Pending("email")) + EmailOutbox.AnsweredMessages(queue.available, down, outcome.analysisId + 1, db.nextId)
    ensures forall name :: name != "email" ==> queue.Pending(name) == old(queue.Pending(name))
  {
    var transcriptId := db.jobs[jobId].transcriptId;
    ghost var jobs0 := db.jobs;
    Claim(db, jobId, now);
    ghost var jobs1 := db.jobs;
    outcome := GenerateAndCommit(db, queue, jobId, now, llm, fanOutError, jitter, down);
    ClaimForgotten(jobs0, jobs1, db.jobs, old(db.transcripts), db.transcripts, jobId, transcriptId,
                   if outcome.Failed? then outcome.message else "", now, jitter);
  }

  /**
   * The body of one pass of `_run` once the loop is running: one BRPOP of
   * the "analysis" queue and, when it yields a job id, `_process_job`.
   */
  method PollJob(db: Database, queue: QueueService.Queue, now: int, llm: LlmOutcome, fanOutError: Option<string>,
                 jitter: nat, down: set<nat>) returns (got: QueueService.Reception, outcome: Option<JobOutcome>)
    requires db.Valid()
    requires jitter <= RetryUtils.JitterBound(RetryUtils.DefaultBase)
    modifies db`jobs, db`transcripts, db`analyses, db`outbox, db`nextId, queue`lists
    ensures db.Valid()
    ensures got == if !queue.available then QueueService.Unreachable
                   else if old(queue.Pending("analysis")) == [] then QueueService.Empty
                   else QueueService.Filtered(old(queue.Pending("analysis"))[0], MessageField)
    ensures outcome.Some? <==> got.Got?
    ensures outcome.Some? ==> JobProcessed(old(BeforeJob(db, got.id)), db, got.id, now, llm, fanOutError, jitter, outcome.value)
    ensures outcome.None? ==>
      && db.jobs == old(db.jobs) && db.transcripts == old(db.transcripts) && db.analyses == old(db.analyses)
      && db.outbox == old(db.outbox) && db.nextId == old(db.nextId)
    ensures queue.Pending("analysis") ==
      if queue.available && old(queue.Pending("analysis")) != [] then old(queue.Pending("analysis"))[1..]
      else old(queue.Pending("analysis"))
    ensures forall name :: name != "analysis" && name != "email" ==> queue.Pending(name) == old(queue.Pending(name))
    ensures outcome.None? || !outcome.value.Completed? ==> queue.Pending("email") == old(queue.Pending("email"))
    ensures outcome.Some? && outcome.value.Completed? ==>
      queue.Pending("email") == old(queue.Pending("email")) +
        EmailOutbox.AnsweredMessages(queue.available, down, outcome.value.analysisId + 1, db.nextId)
  {
    assert "analysis"[0] != "email"[0];
    got := QueueService.Receive(queue, "analysis", MessageField);
    ghost var pending := queue.Pending("analysis");
    assert queue.Pending("email") == old(queue.Pending("email"));
    outcome := ProcessGot(db, queue, got, now, llm, fanOutError, jitter, down);
    assert queue.Pending("analysis") == pending;
  }

  /** `_process_job` for the job id a message carried, and nothing for any other reading of the queue. */
  method ProcessGot(db: Database, queue: QueueService.Queue, got: QueueService.Reception, now: int, llm: LlmOutcome,
                    fanOutError: Option<string>, jitter: nat, down: set<nat>) returns (outcome: Option<JobOutcome>)
    requires db.Valid()
    requires jitter <= RetryUtils.JitterBound(RetryUtils.DefaultBase)
    modifies db`jobs, db`transcripts, db`analyses, db`outbox, db`nextId, queue`lists
    ensures db.Valid()
    ensures outcome.Some? <==> got.Got?
    ensures outcome.Some? ==> JobProcessed(old(BeforeJob(db, got.id)), db, got.id, now, llm, fanOutError, jitter, outcome.value)
    ensures outcome.None? ==> unchanged(db) && queue.lists == old(queue.lists)
    ensures forall name :: name != "email" ==> queue.Pending(name) == old(queue.Pending(name))
    ensures outcome.None? || !outcome.value.Completed? ==> queue.Pending("email") == old(queue.Pending("email"))
    ensures outcome.Some? && outcome.value.Completed? ==>
      queue.Pending("email") == old(queue.Pending("email")) +
        EmailOutbox.AnsweredMessages(queue.available, down, outcome.value.analysisId + 1, db.nextId)
  {
    outcome := None;
    if got.Got? {
      var o := ProcessJob(db, queue, got.id, now, llm, fanOutError, jitter, down);
      outcome := Some(o);
    }
  }

  /**
   * What one pass of the `_run` loop did: nothing when stopped, nothing when
   * the loop's thread has ended, or the reading of one BRPOP.
   */
  datatype Poll = Stopped | Halted | Polled(got: QueueService.Reception)

  class AnalysisQueueWorker {
    const db: Database
    const queue: QueueService.Queue
    var running: bool
    /** The `_run` thread ended on an exception the loop does not catch, while `running` stayed set. */
    var crashed: bool

    constructor (db: Database, queue: QueueService.Queue)
      ensures this.db == db && this.queue == queue && !running && !crashed
    {
      this.db := db;
      this.queue := queue;
      running := false;
      crashed := false;
    }

    /** start: a second call while running starts nothing, even when the thread has ended; otherwise a new thread. */
    method Start()
      modifies this`running, this`crashed
      ensures running
      ensures crashed == (old(running) && old(crashed))
    {
      if running {
        return;
      }
      running := true;
      crashed := false;
    }

    method Stop()
      modifies this`running
      ensures !running
    {
      running := false;
    }

    /** An exception outside the loop's try ends the thread. */
    method Crash()
      modifies this`crashed
      ensures crashed
    {
      crashed := true;
    }

    /**
     * One pass of `_run`: one BRPOP of the "analysis" queue, the tests of
     * the message, and `_process_job` for an id. The dequeue and `job.get`
     * sit outside the loop's try, so an unreachable server or a truthy JSON
     * value that is not an object ends the thread, and later passes do
     * nothing until a stop and a start.
     */
    method RunOnce(now: int, llm: LlmOutcome, fanOutError: Option<string>, jitter: nat, down: set<nat>)
      returns (r: Poll, outcome: Option<JobOutcome>)
      requires db.Valid()
      requires jitter <= RetryUtils.JitterBound(RetryUtils.DefaultBase)
      modifies this`crashed, db`jobs, db`transcripts, db`analyses, db`outbox, db`nextId, queue`lists
      ensures db.Valid()
      ensures r == Stopped <==> !running
      ensures r == Halted <==> running && old(crashed)
      ensures r.Polled? ==>
        r.got == if !queue.available then QueueService.Unreachable
                 else if old(queue.Pending("analysis")) == [] then QueueService.Empty
                 else QueueService.Filtered(old(queue.Pending("analysis"))[0], MessageField)
      ensures crashed <==> old(crashed) || r == Polled(QueueService.Unreachable) || r == Polled(QueueService.Malformed)
      ensures outcome.Some? <==> r.Polled? && r.got.Got?
      ensures outcome.Some? ==>
        JobProcessed(old(BeforeJob(db, r.got.id)), db, r.got.id, now, llm, fanOutError, jitter, outcome.value)
      ensures outcome.None? ==>
        && db.jobs == old(db.jobs) && db.transcripts == old(db.transcripts) && db.analyses == old(db.analyses)
        && db.outbox == old(db.outbox) && db.nextId == old(db.nextId)
      ensures queue.Pending("analysis") ==
        if r.Polled? && queue.available && old(queue.Pending("analysis")) != []
        then old(queue.Pending("analysis"))[1..] else old(queue.Pending("analysis"))
      ensures forall name :: name != "analysis" && name != "email" ==> queue.Pending(name) == old(queue.Pending(name))
      ensures outcome.None? || !outcome.value.Completed? ==> queue.Pending("email") == old(queue.Pending("email"))
      ensures outcome.Some? && outcome.value.Completed? ==>
        queue.Pending("email") == old(queue.Pending("email")) +
          EmailOutbox.AnsweredMessages(queue.available, down, outcome.value.analysisId + 1, db.nextId)
    {
      outcome := None;
      if !running {
        return Stopped, outcome;
      }
      if crashed {
        return Halted, outcome;
      }
      var got;
      got, outcome := PollJob(db, queue, now, llm, fanOutError, jitter, down);
      r := Polled(got);
      if got == QueueService.Unreachable || got == QueueService.Malformed {
        Crash();
      }
    }
  }
}
