/**
 * Startup recovery (backend/services/recovery_service.py): transcripts
 * whose analysis has been `in_progress` for longer than the stale window are
 * reset and resubmitted, and `in_progress` analysis jobs and outbox rows
 * whose lease is missing or expired go back to `retrying`, due at once.
 */
module Recovery {
  import opened Wrappers
  import opened Store
  import QueueService
  import AnalysisJobs

  const DefaultStaleMinutes: int := 5

  /** `int(stale_minutes)`, then the floor of 1; `None` stands for a value `int()` rejects. */
  function StaleWindow(staleMinutes: Option<int>): (minutes: int)
    ensures minutes >= 1
    ensures staleMinutes.None? ==> minutes == DefaultStaleMinutes
    ensures staleMinutes.Some? && staleMinutes.value >= 1 ==> minutes == staleMinutes.value
    ensures staleMinutes.Some? && staleMinutes.value < 1 ==> minutes == 1
  {
    var m := if staleMinutes.Some? then staleMinutes.value else DefaultStaleMinutes;
    if m < 1 then 1 else m
  }

  /** COALESCE(updated_at, created_at). */
  function LastTouched(t: Transcript): int {
    if t.updatedAt.Some? then t.updatedAt.value else t.createdAt
  }

  /** The WHERE of the stale-transcript SELECT. */
  predicate Stale(t: Transcript, cutoff: int) {
    t.analysisStatus == Some(InProgress) && LastTouched(t) < cutoff
  }

  /** The SELECT of stale transcripts over the ids in [lo, hi), in id order. */
  function StaleIds(ts: map<int, Transcript>, cutoff: int, lo: int, hi: int): seq<int>
    decreases hi - lo
  {
    if lo >= hi then []
    else
      var here := if lo in ts && Stale(ts[lo], cutoff) then [lo] else [];
      here + StaleIds(ts, cutoff, lo + 1, hi)
  }

  /** The stale ids are exactly the stale rows in range, each once, in increasing order. */
  lemma {:induction false} StaleIdsExactly(ts: map<int, Transcript>, cutoff: int, lo: int, hi: int)
    ensures forall i :: i in StaleIds(ts, cutoff, lo, hi) <==> lo <= i < hi && i in ts && Stale(ts[i], cutoff)
    ensures forall a, b :: 0 <= a < b < |StaleIds(ts, cutoff, lo, hi)| ==> StaleIds(ts, cutoff, lo, hi)[a] < StaleIds(ts, cutoff, lo, hi)[b]
    ensures forall j :: 0 <= j < |StaleIds(ts, cutoff, lo, hi)| ==> StaleIds(ts, cutoff, lo, hi)[j] >= lo
    decreases hi - lo
  {
    if lo < hi {
      StaleIdsExactly(ts, cutoff, lo + 1, hi);
      var tail := StaleIds(ts, cutoff, lo + 1, hi);
      var all := StaleIds(ts, cutoff, lo, hi);
      if lo in ts && Stale(ts[lo], cutoff) {
        assert all == [lo] + tail;
        forall a, b | 0 <= a < b < |all|
          ensures all[a] < all[b]
        {
          assert all[b] == tail[b - 1] && tail[b - 1] in tail;
        }
      }
    }
  }

  /** The UPDATE of the stale transcripts: analysis status and error back to NULL. */
  function ResetTranscripts(ts: map<int, Transcript>, cutoff: int, now: int): (r: map<int, Transcript>)
    ensures r.Keys == ts.Keys
  {
    map i | i in ts :: if Stale(ts[i], cutoff) then ts[i].(analysisStatus := None, analysisError := None, updatedAt := Some(now)) else ts[i]
  }

  /** The WHERE of the two lease repairs: in progress, with no lease or one that has run out. */
  predicate Recoverable(status: JobStatus, lockedUntil: Option<int>, now: int) {
    status == InProgress && LeaseFree(lockedUntil, now)
  }

  function RecoverableJobs(jobs: map<int, Job>, now: int): set<int> {
    set i | i in jobs && Recoverable(jobs[i].status, jobs[i].lockedUntil, now)
  }

  /** The UPDATE of analysis_jobs: retrying, due now, lease released. */
  function RecoveredJobs(jobs: map<int, Job>, now: int): (r: map<int, Job>)
    ensures r.Keys == jobs.Keys
    ensures forall i :: i in jobs && !Recoverable(jobs[i].status, jobs[i].lockedUntil, now) ==> r[i] == jobs[i]
    ensures forall i :: i in jobs && Recoverable(jobs[i].status, jobs[i].lockedUntil, now) ==>
      r[i].status == Retrying && r[i].retryNextAt == Some(now) && r[i].lockedUntil.None?
      && r[i].attempts == jobs[i].attempts && r[i].idempotencyKey == jobs[i].idempotencyKey
  {
    map i | i in jobs ::
      if Recoverable(jobs[i].status, jobs[i].lockedUntil, now)
      then jobs[i].(status := Retrying, retryNextAt := Some(now), lockedUntil := None)
      else jobs[i]
  }

  function RecoverableOutbox(outbox: map<int, OutboxRow>, now: int): set<int> {
    set i | i in outbox && Recoverable(outbox[i].status, outbox[i].lockedUntil, now)
  }

  /** The UPDATE of email_outbox, by the same rule. */
  function RecoveredOutbox(outbox: map<int, OutboxRow>, now: int): (r: map<int, OutboxRow>)
    ensures r.Keys == outbox.Keys
    ensures forall i :: i in outbox && !Recoverable(outbox[i].status, outbox[i].lockedUntil, now) ==> r[i] == outbox[i]
    ensures forall i :: i in outbox && Recoverable(outbox[i].status, outbox[i].lockedUntil, now) ==>
      r[i].status == Retrying && r[i].retryNextAt == Some(now) && r[i].lockedUntil.None?
      && r[i].attempts == outbox[i].attempts
      && r[i].analysisId == outbox[i].analysisId && r[i].recipient == outbox[i].recipient
  {
    map i | i in outbox ::
      if Recoverable(outbox[i].status, outbox[i].lockedUntil, now)
      then outbox[i].(status := Retrying, retryNextAt := Some(now), lockedUntil := None)
      else outbox[i]
  }

  /** With no stale transcript among the ids in range, the reset changes nothing. */
  lemma NothingStale(ts: map<int, Transcript>, cutoff: int, now: int, hi: int)
    requires forall i :: i in ts ==> 1 <= i < hi
    requires StaleIds(ts, cutoff, 1, hi) == []
    ensures ResetTranscripts(ts, cutoff, now) == ts
  {
    StaleIdsExactly(ts, cutoff, 1, hi);
    var r := ResetTranscripts(ts, cutoff, now);
    forall i | i in ts
      ensures r[i] == ts[i]
    {
      assert i !in StaleIds(ts, cutoff, 1, hi);
    }
    assert r.Keys == ts.Keys;
  }

  /** The lease repairs keep every key and pair, so they keep them unique. */
  lemma RepairsKeepUnique(jobs: map<int, Job>, outbox: map<int, OutboxRow>, now: int)
    requires JobKeysUnique(jobs) && OutboxPairsUnique(outbox)
    ensures JobKeysUnique(RecoveredJobs(jobs, now)) && OutboxPairsUnique(RecoveredOutbox(outbox, now))
  {
    var r := RecoveredJobs(jobs, now);
    assert forall i :: i in r ==> r[i].idempotencyKey == jobs[i].idempotencyKey;
    var o := RecoveredOutbox(outbox, now);
    assert forall i :: i in o ==> o[i].analysisId == outbox[i].analysisId && o[i].recipient == outbox[i].recipient;
  }

  /** A second recovery at the same time finds nothing to repair. */
  lemma RecoveryIdempotent(ts: map<int, Transcript>, jobs: map<int, Job>, outbox: map<int, OutboxRow>, cutoff: int, now: int)
    ensures forall i :: i in ResetTranscripts(ts, cutoff, now) ==> !Stale(ResetTranscripts(ts, cutoff, now)[i], cutoff)
    ensures RecoverableJobs(RecoveredJobs(jobs, now), now) == {}
    ensures RecoverableOutbox(RecoveredOutbox(outbox, now), now) == {}
  {
    var r := RecoveredJobs(jobs, now);
    assert forall i :: i in r ==> !Recoverable(r[i].status, r[i].lockedUntil, now);
    var o := RecoveredOutbox(outbox, now);
    assert forall i :: i in o ==> !Recoverable(o[i].status, o[i].lockedUntil, now);
  }

  /** The counts `run_startup_recovery` returns. */
  datatype Summary = Summary(staleTranscriptsReset: int, analysisJobsRecovered: int, emailJobsRecovered: int,
                             analysisJobsRequeued: int)

  /** The transaction of `run_startup_recovery`: the SELECT, the transcript reset and the two lease repairs. */
  method RepairRows(db: Database, minutes: int, now: int) returns (stale: seq<int>, summary: Summary)
    requires db.Valid()
    modifies db`transcripts, db`jobs, db`outbox
    ensures db.Valid()
    ensures stale == StaleIds(old(db.transcripts), now - 60 * minutes, 1, db.nextId)
    ensures forall i :: i in stale ==> i in db.transcripts
    ensures forall j :: 0 <= j < |stale| ==> stale[j] >= 1
    ensures db.transcripts == ResetTranscripts(old(db.transcripts), now - 60 * minutes, now)
    ensures db.jobs == RecoveredJobs(old(db.jobs), now)
    ensures db.outbox == RecoveredOutbox(old(db.outbox), now)
    ensures summary == Summary(|stale|, |RecoverableJobs(old(db.jobs), now)|, |RecoverableOutbox(old(db.outbox), now)|, 0)
  {
    var cutoff := now - 60 * minutes;
    stale := StaleIds(db.transcripts, cutoff, 1, db.nextId);
    StaleIdsExactly(db.transcripts, cutoff, 1, db.nextId);
    var ts := db.transcripts;
    if stale != [] {
      ts := ResetTranscripts(ts, cutoff, now);
    } else {
      NothingStale(ts, cutoff, now, db.nextId);
    }
    RepairsKeepUnique(db.jobs, db.outbox, now);
    var jobs := RecoveredJobs(db.jobs, now);
    var outbox := RecoveredOutbox(db.outbox, now);
    summary := Summary(|stale|, |RecoverableJobs(db.jobs, now)|, |RecoverableOutbox(db.outbox, now)|, 0);
    db.transcripts, db.jobs, db.outbox := ts, jobs, outbox;
  }


  /** The stale ids that name a transcript with no analysis: those a non-forced enqueue accepts. */
  function Unanalysed(transcripts: map<int, Transcript>, analyses: map<int, Analysis>, ids: seq<int>): (n: nat)
    ensures n <= |ids|
  {
    if ids == [] then 0
    else
      var last := ids[|ids| - 1];
      Unanalysed(transcripts, analyses, ids[..|ids| - 1]) +
        if last in transcripts && !Analysed(analyses, last) then 1 else 0
  }

  /**
   * The resubmission loop over values: one non-forced enqueue per id, in
   * order, each on the state the previous one left; the count of ids returned.
   */
  ghost function Resubmitted(transcripts: map<int, Transcript>, analyses: map<int, Analysis>, s: AnalysisJobs.JobsState,
                             stale: seq<int>, now: int, available: bool): (int, AnalysisJobs.JobsState)
    requires forall j :: 0 <= j < |stale| ==> stale[j] >= 1
  {
    if stale == [] then (0, s)
    else
      var before := Resubmitted(transcripts, analyses, s, stale[..|stale| - 1], now, available);
      var step := AnalysisJobs.Enqueued(transcripts, analyses, before.1, stale[|stale| - 1], false, now, available);
      (before.0 + if step.0.Some? then 1 else 0, step.1)
  }

  /** The count is that of the stale transcripts still without an analysis. */
  lemma {:induction false} ResubmittedCount(transcripts: map<int, Transcript>, analyses: map<int, Analysis>,
                                            s: AnalysisJobs.JobsState, stale: seq<int>, now: int, available: bool)
    requires forall j :: 0 <= j < |stale| ==> stale[j] >= 1
    ensures Resubmitted(transcripts, analyses, s, stale, now, available).0 == Unanalysed(transcripts, analyses, stale)
  {
    if stale != [] {
      ResubmittedCount(transcripts, analyses, s, stale[..|stale| - 1], now, available);
    }
  }

  /** The resubmission loop: one non-forced enqueue per stale transcript, counting the ids returned. */
  method Requeue(db: Database, queue: QueueService.Queue, stale: seq<int>, now: int) returns (requeued: nat)
    requires db.Valid() && forall j :: 0 <= j < |stale| ==> stale[j] >= 1
    modifies db`jobs, db`nextId, queue`lists
    ensures db.Valid()
    ensures (requeued, AnalysisJobs.JobsState(db.jobs, db.nextId, queue.Pending("analysis"))) ==
      Resubmitted(db.transcripts, db.analyses, old(AnalysisJobs.JobsState(db.jobs, db.nextId, queue.Pending("analysis"))),
                  stale, now, queue.available)
    ensures forall name :: name != "analysis" ==> queue.Pending(name) == old(queue.Pending(name))
  {
    ghost var s0 := AnalysisJobs.JobsState(db.jobs, db.nextId, queue.Pending("analysis"));
    requeued := 0;
    var k := 0;
    while k < |stale|
      invariant 0 <= k <= |stale| && db.Valid()
      invariant (requeued, AnalysisJobs.JobsState(db.jobs, db.nextId, queue.Pending("analysis"))) ==
        Resubmitted(db.transcripts, db.analyses, s0, stale[..k], now, queue.available)
      invariant forall name :: name != "analysis" ==> queue.Pending(name) == old(queue.Pending(name))
    {
      assert stale[k] in stale;
      assert stale[..k + 1][..k] == stale[..k];
      var jobId := AnalysisJobs.EnqueueForTranscript(db, queue, stale[k], false, now);
      if jobId.Some? {
        requeued := requeued + 1;
      }
      k := k + 1;
    }
    assert stale[..k] == stale;
  }

  /**
   * run_startup_recovery: the repairs in one transaction, then the
   * resubmissions. The counts are those of the rows each UPDATE changed,
   * and at most one job is requeued per stale transcript.
   */
  method RunStartupRecovery(db: Database, queue: QueueService.Queue, staleMinutes: Option<int>, now: int)
    returns (summary: Summary)
    requires db.Valid()
    modifies db`transcripts, db`jobs, db`outbox, db`nextId, queue`lists
    ensures db.Valid()
    ensures var cutoff := now - 60 * StaleWindow(staleMinutes);
      && summary.staleTranscriptsReset == |StaleIds(old(db.transcripts), cutoff, 1, old(db.nextId))|
      && db.transcripts == ResetTranscripts(old(db.transcripts), cutoff, now)
    ensures db.outbox == RecoveredOutbox(old(db.outbox), now)
    ensures summary.analysisJobsRecovered == |RecoverableJobs(old(db.jobs), now)|
    ensures summary.emailJobsRecovered == |RecoverableOutbox(old(db.outbox), now)|
    ensures var cutoff := now - 60 * StaleWindow(staleMinutes);
      var stale := StaleIds(old(db.transcripts), cutoff, 1, old(db.nextId));
      && (forall j :: 0 <= j < |stale| ==> stale[j] >= 1)
      && (summary.analysisJobsRequeued, AnalysisJobs.JobsState(db.jobs, db.nextId, queue.Pending("analysis"))) ==
           Resubmitted(db.transcripts, old(db.analyses),
                       AnalysisJobs.JobsState(RecoveredJobs(old(db.jobs), now), old(db.nextId), old(queue.Pending("analysis"))),
                       stale, now, old(queue.available))
      && summary.analysisJobsRequeued == Unanalysed(db.transcripts, old(db.analyses), stale)
    ensures 0 <= summary.analysisJobsRequeued <= summary.staleTranscriptsReset
    ensures forall name :: name != "analysis" ==> queue.Pending(name) == old(queue.Pending(name))
  {
    var minutes := StaleWindow(staleMinutes);
    var stale;
    stale, summary := RepairRows(db, minutes, now);
    ghost var repaired := AnalysisJobs.JobsState(db.jobs, db.nextId, queue.Pending("analysis"));
    assert repaired == AnalysisJobs.JobsState(RecoveredJobs(old(db.jobs), now), old(db.nextId), old(queue.Pending("analysis")));
    var requeued := Requeue(db, queue, stale, now);
    ResubmittedCount(db.transcripts, db.analyses, repaired, stale, now, queue.available);
    summary := summary.(analysisJobsRequeued := requeued);
  }
}
