/**
 * The email consumer (backend/services/email_queue_worker.py): take an
 * "email" message, claim the outbox row with a one-hour lease, join the
 * analysis with its transcript and stock, send the report, and mark the row
 * `done`. Every failure, a missing analysis included, puts the row back to
 * `retrying` with one more attempt and a backoff; an outbox row never
 * reaches `error`.
 */
module EmailWorker {
  import opened Wrappers
  import opened Store
  import QueueService
  import RetryUtils
  import EmailService

  const ClaimLeaseSeconds: int := 3600
  const MessageField: string := "email_outbox_id"
  const AnalysisMissing: string := "Analysis not found for email"

  /** The fields `_process_job` hands to `send_analysis_email`. */
  datatype ReportFields = ReportFields(
    recipient: string,
    symbol: Option<string>,
    stockName: string,
    quarter: string,
    year: int,
    content: string,
    provider: string,
    modelName: string,
    transcriptUrl: Option<string>)

  /** What one `_process_job` call did. */
  datatype EmailOutcome = EmailSkipped | EmailSent(fields: ReportFields) | EmailFailed(message: string)

  /**
   * The SELECT joining transcript_analyses, transcripts and stocks: None
   * when any of the three rows is missing. The symbol falls back to the BSE
   * code and the model name to the provider.
   */
  function ReportFor(db: Database, row: OutboxRow): (r: Option<ReportFields>)
    reads db`analyses, db`transcripts, db`stocks
    ensures r.Some? <==>
      && row.analysisId in db.analyses
      && db.analyses[row.analysisId].transcriptId in db.transcripts
      && db.transcripts[db.analyses[row.analysisId].transcriptId].stockId in db.stocks
    ensures r.Some? ==>
      var a := db.analyses[row.analysisId];
      var s := db.stocks[db.transcripts[a.transcriptId].stockId];
      && r.value.recipient == row.recipient
      && (HasText(s.symbol) ==> r.value.symbol == s.symbol)
      && (!HasText(s.symbol) ==> r.value.symbol == s.bseCode)
      && (HasText(a.modelId) ==> r.value.modelName == a.modelId.value)
      && (!HasText(a.modelId) ==> r.value.modelName == a.provider)
      && r.value.content == a.output
  {
    if row.analysisId !in db.analyses then None
    else
      var a := db.analyses[row.analysisId];
      if a.transcriptId !in db.transcripts then None
      else
        var t := db.transcripts[a.transcriptId];
        if t.stockId !in db.stocks then None
        else
          var s := db.stocks[t.stockId];
          Some(ReportFields(row.recipient, OrText(s.symbol, s.bseCode), s.name, t.quarter, t.year, a.output,
                            a.provider, if HasText(a.modelId) then a.modelId.value else a.provider, t.sourceUrl))
  }

  /** The row after the claim UPDATE. */
  function ClaimedRow(o: OutboxRow, now: int): OutboxRow {
    o.(status := InProgress, lockedUntil := Some(now + ClaimLeaseSeconds))
  }

  /** The row after a successful send. */
  function SentRow(o: OutboxRow): OutboxRow {
    o.(status := Done, retryNextAt := None, lockedUntil := None)
  }

  /** The row the exception handler writes. */
  function RetryRow(o: OutboxRow, now: int, jitter: nat): OutboxRow
    requires jitter <= RetryUtils.JitterBound(RetryUtils.DefaultBase)
  {
    var attempts := o.attempts + 1;
    o.(status := Retrying, attempts := attempts,
       retryNextAt := Some(now + RetryUtils.ComputeBackoffSeconds(attempts, jitter, RetryUtils.DefaultBase, RetryUtils.DefaultMax)),
       lockedUntil := None)
  }

  /**
   * Whatever went wrong, the row is retried: one more attempt, the lease
   * freed, and the next try one to about sixty minutes away.
   */
  lemma RetryRowSchedule(o: OutboxRow, now: int, jitter: nat)
    requires jitter <= RetryUtils.JitterBound(RetryUtils.DefaultBase)
    requires o.attempts >= 0
    ensures var r := RetryRow(o, now, jitter);
      && r.status == Retrying && r.status != Error
      && r.attempts == o.attempts + 1 && r.lockedUntil.None?
      && r.retryNextAt.Some? && now + 60 <= r.retryNextAt.value <= now + 3630
      && r.analysisId == o.analysisId && r.recipient == o.recipient
  {
    RetryUtils.BackoffAtLeastBase(o.attempts + 1, jitter, RetryUtils.DefaultBase, RetryUtils.DefaultMax);
    RetryUtils.DefaultBackoffAtMost3630(o.attempts + 1, jitter);
  }

  /** The message the handler sees: a missing join first, then the send's own failure. */
  function SendFailure(report: Option<ReportFields>, smtpConfigured: bool, transportError: Option<EmailService.SmtpError>): (r: Option<string>)
    ensures report.None? ==> r == Some(AnalysisMissing)
    ensures report.Some? ==> (r.None? <==> smtpConfigured && transportError.None?)
  {
    if report.None? then Some(AnalysisMissing)
    else
      match EmailService.SendAnalysisEmail(smtpConfigured, transportError)
      case Ok(_) => None
      case Err(e) => Some(e)
  }

  /** An outbox row changed at one id keeps the table's (analysis_id, recipient) pairs. */
  lemma SamePairKeepsUnique(outbox: map<int, OutboxRow>, id: int, row: OutboxRow)
    requires OutboxPairsUnique(outbox) && id in outbox
    requires row.analysisId == outbox[id].analysisId && row.recipient == outbox[id].recipient
    ensures OutboxPairsUnique(outbox[id := row])
  {
  }

  /** The handler and the closing UPDATE rewrite every column the claim wrote. */
  lemma ClaimOverwritten(o: OutboxRow, now: int, jitter: nat)
    requires jitter <= RetryUtils.JitterBound(RetryUtils.DefaultBase)
    ensures RetryRow(ClaimedRow(o, now), now, jitter) == RetryRow(o, now, jitter)
    ensures SentRow(ClaimedRow(o, now)) == SentRow(o)
  {
  }

  /**
   * What `_process_job(outboxId)` leaves in the outbox it found as
   * `outbox0`: a missing or sent row is skipped; otherwise the row ends
   * `done` when the report was joined and sent, and `retrying` with the
   * failure's message otherwise.
   */
  ghost predicate EmailProcessed(outbox0: map<int, OutboxRow>, db: Database, outboxId: int, now: int,
                                 smtpConfigured: bool, transportError: Option<EmailService.SmtpError>, jitter: nat,
                                 outcome: EmailOutcome)
    reads db
  {
    && jitter <= RetryUtils.JitterBound(RetryUtils.DefaultBase)
    && (outcome.EmailSkipped? <==> outboxId !in outbox0 || outbox0[outboxId].status == Done)
    && (outcome.EmailSkipped? ==> db.outbox == outbox0)
    && (!outcome.EmailSkipped? ==>
          var o := outbox0[outboxId];
          var report := ReportFor(db, o);
          var failure := SendFailure(report, smtpConfigured, transportError);
          && (outcome.EmailFailed? <==> failure.Some?)
          && (outcome.EmailFailed? ==>
                outcome.message == failure.value && db.outbox == outbox0[outboxId := RetryRow(o, now, jitter)])
          && (outcome.EmailSent? ==>
                outcome.fields == report.value && db.outbox == outbox0[outboxId := SentRow(o)]))
  }

  /**
   * _process_job. `smtpConfigured` is whether an active SMTP configuration
   * exists, `transportError` what the SMTP exchange raised, `jitter` the
   * drawn backoff jitter.
   */
  method ProcessJob(db: Database, outboxId: int, now: int, smtpConfigured: bool,
                    transportError: Option<EmailService.SmtpError>, jitter: nat)
    returns (outcome: EmailOutcome)
    requires db.Valid()
    requires jitter <= RetryUtils.JitterBound(RetryUtils.DefaultBase)
    modifies db`outbox
    ensures db.Valid()
    ensures EmailProcessed(old(db.outbox), db, outboxId, now, smtpConfigured, transportError, jitter, outcome)
  {
    if outboxId !in db.outbox || db.outbox[outboxId].status == Done {
      return EmailSkipped;
    }
    var o := db.outbox[outboxId];
    var report := ReportFor(db, o);
    ghost var outbox0 := db.outbox;
    SamePairKeepsUnique(db.outbox, outboxId, ClaimedRow(o, now));
    db.outbox := db.outbox[outboxId := ClaimedRow(o, now)];
    ghost var outbox1 := db.outbox;
    var failure := SendFailure(report, smtpConfigured, transportError);
    ClaimOverwritten(o, now, jitter);
    if failure.Some? {
      // The handler reads attempts back from the claimed row, which the claim left as it was.
      var claimed := db.outbox[outboxId];
      SamePairKeepsUnique(db.outbox, outboxId, RetryRow(claimed, now, jitter));
      db.outbox := db.outbox[outboxId := RetryRow(claimed, now, jitter)];
      assert db.outbox == outbox1[outboxId := RetryRow(o, now, jitter)] == outbox0[outboxId := RetryRow(o, now, jitter)];
      return EmailFailed(failure.value);
    }
    SamePairKeepsUnique(db.outbox, outboxId, SentRow(o));
    db.outbox := db.outbox[outboxId := SentRow(db.outbox[outboxId])];
    assert db.outbox == outbox1[outboxId := SentRow(o)] == outbox0[outboxId := SentRow(o)];
    outcome := EmailSent(report.value);
  }

  /**
   * What one pass of the `_run` loop did: nothing when stopped, nothing when
   * the loop's thread has ended, or the reading of one BRPOP.
   */
  datatype Poll = Stopped | Halted | Polled(got: QueueService.Reception)

  class EmailQueueWorker {
    const db: Database
    const queue: QueueService.Queue
    var running: bool
    /** The `_run` thread ended on an exception the loop does not catch, while `running` stayed set. */
    var crashed: bool

    constructor (db: Database, queue: QueueService.Queue)
      ensures this.db == db && this.queue == queue && !running && !crashed
    {
      this.db := db;
      this.queue := queue;
      running := false;
      crashed := false;
    }

    /** start: a second call while running starts nothing, even when the thread has ended; otherwise a new thread. */
    method Start()
      modifies this`running, this`crashed
      ensures running
      ensures crashed == (old(running) && old(crashed))
    {
      if running {
        return;
      }
      running := true;
      crashed := false;
    }

    method Stop()
      modifies this`running
      ensures !running
    {
      running := false;
    }

    /**
     * One pass of `_run`: one BRPOP of the "email" queue, the tests of the
     * message, and `_process_job`, whose own handler catches every failure.
     * The dequeue and `job.get` sit outside the loop's try, so an
     * unreachable server or a truthy JSON value that is not an object ends
     * the thread, and later passes do nothing until a stop and a start.
     */
    method RunOnce(now: int, smtpConfigured: bool, transportError: Option<EmailService.SmtpError>, jitter: nat)
      returns (r: Poll, outcome: Option<EmailOutcome>)
      requires db.Valid()
      requires jitter <= RetryUtils.JitterBound(RetryUtils.DefaultBase)
      modifies this`crashed, db`outbox, queue`lists
      ensures db.Valid()
      ensures r == Stopped <==> !running
      ensures r == Halted <==> running && old(crashed)
      ensures r.Polled? ==>
        r.got == if !queue.available then QueueService.Unreachable
                 else if old(queue.Pending("email")) == [] then QueueService.Empty
                 else QueueService.Filtered(old(queue.Pending("email"))[0], MessageField)
      ensures crashed <==> old(crashed) || r == Polled(QueueService.Unreachable) || r == Polled(QueueService.Malformed)
      ensures outcome.Some? <==> r.Polled? && r.got.Got?
      ensures outcome.Some? ==>
        EmailProcessed(old(db.outbox), db, r.got.id, now, smtpConfigured, transportError, jitter, outcome.value)
      ensures outcome.None? ==> db.outbox == old(db.outbox)
      ensures queue.Pending("email") ==
        if r.Polled? && queue.available && old(queue.Pending("email")) != []
        then old(queue.Pending("email"))[1..] else old(queue.Pending("email"))
      ensures forall name :: name != "email" ==> queue.Pending(name) == old(queue.Pending(name))
    {
      outcome := None;
      if !running {
        return Stopped, outcome;
      }
      if crashed {
        return Halted, outcome;
      }
      var got := QueueService.Receive(queue, "email", MessageField);
      r := Polled(got);
      if got == QueueService.Unreachable || got == QueueService.Malformed {
        crashed := true;
      } else if got.Got? {
        var o := ProcessJob(db, got.id, now, smtpConfigured, transportError, jitter);
        outcome := Some(o);
      }
    }
  }
}
