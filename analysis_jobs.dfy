/**
 * The analysis-job producer (backend/services/analysis_job_service.py):
 * one analysis_jobs row per idempotency key, moved to `queued` and
 * announced on the "analysis" queue, with a fallback to `pending` when
 * the queue push fails.
 */
module AnalysisJobs {
  import opened Wrappers
  import opened Text
  import opened Store
  import QueueService

  /** The 15-minute lease written by the guarded UPDATE. */
  const QueueLeaseSeconds: int := 900

  /** "transcript_id:source_url", with an absent url written as "". */
  function BaseKey(transcriptId: nat, sourceUrl: Option<string>): string {
    NatToString(transcriptId) + ":" + (if HasText(sourceUrl) then sourceUrl.value else "")
  }

  /** _build_idempotency_key: a forced key is salted with the clock reading in whole seconds. */
  function BuildIdempotencyKey(transcriptId: nat, sourceUrl: Option<string>, force: bool, now: int): (key: string)
    ensures !force ==> key == BaseKey(transcriptId, sourceUrl)
    ensures force ==> BaseKey(transcriptId, sourceUrl) < key
  {
    var base := BaseKey(transcriptId, sourceUrl);
    if force then base + ":force:" + IntToString(now) else base
  }

  /** Non-forced keys of different (transcript, url) pairs are different. */
  lemma BaseKeyInjective(t: nat, u: Option<string>, t': nat, u': Option<string>)
    requires BaseKey(t, u) == BaseKey(t', u')
    ensures t == t'
    ensures (if HasText(u) then u.value else "") == (if HasText(u') then u'.value else "")
  {
    var d, d' := NatToString(t), NatToString(t');
    var s, s' := (if HasText(u) then u.value else ""), (if HasText(u') then u'.value else "");
    DigitsHaveNoColon(d);
    DigitsHaveNoColon(d');
    FirstColon(d, s, d', s');
    NatToStringInjective(t, t');
    assert s == BaseKey(t, u)[|d| + 1..];
    assert s' == BaseKey(t', u')[|d'| + 1..];
  }

  lemma DigitsHaveNoColon(d: string)
    requires forall i :: 0 <= i < |d| ==> IsDigit(d[i])
    ensures ':' !in d
  {
    if ':' in d {
      assert false;
    }
  }

  function FirstIndexOf(x: string, c: char): nat
    decreases |x|
  {
    if x == [] || x[0] == c then 0 else 1 + FirstIndexOf(x[1..], c)
  }

  lemma {:induction false} FirstIndexAfter(a: string, c: char, s: string)
    requires c !in a
    ensures FirstIndexOf(a + [c] + s, c) == |a|
    decreases |a|
  {
    if a != [] {
      assert (a + [c] + s)[0] == a[0];
      assert (a + [c] + s)[1..] == a[1..] + [c] + s;
      FirstIndexAfter(a[1..], c, s);
    }
  }

  /** The text before the first ':' of `a + ":" + s` is `a` when `a` has no ':'. */
  lemma FirstColon(a: string, s: string, b: string, t: string)
    requires ':' !in a && ':' !in b
    requires a + ":" + s == b + ":" + t
    ensures a == b
  {
    FirstIndexAfter(a, ':', s);
    FirstIndexAfter(b, ':', t);
    assert a == (a + ":" + s)[..|a|];
    assert b == (b + ":" + t)[..|b|];
  }

  lemma {:induction false} NatToStringLong(n: nat)
    requires n >= 10
    ensures |NatToString(n)| >= 2
  {
    assert NatToString(n) == NatToString(n / 10) + [DigitChar(n % 10)];
  }

  /** Decimal spelling is injective, so a key names its transcript. */
  lemma {:induction false} NatToStringInjective(a: nat, b: nat)
    requires NatToString(a) == NatToString(b)
    ensures a == b
    decreases a
  {
    if a < 10 && b < 10 {
      assert DigitChar(a) == NatToString(a)[0] == NatToString(b)[0] == DigitChar(b);
    } else if a < 10 {
      NatToStringLong(b);
    } else if b < 10 {
      NatToStringLong(a);
    } else {
      var sa, sb := NatToString(a), NatToString(b);
      assert sa == NatToString(a / 10) + [DigitChar(a % 10)];
      assert sb == NatToString(b / 10) + [DigitChar(b % 10)];
      assert sa[|sa| - 1] == DigitChar(a % 10) && sb[|sb| - 1] == DigitChar(b % 10);
      assert NatToString(a / 10) == sa[..|sa| - 1] == sb[..|sb| - 1] == NatToString(b / 10);
      NatToStringInjective(a / 10, b / 10);
    }
  }

  /** Statuses the guarded UPDATE may move to `queued`: no error text is consulted. */
  predicate Requeueable(s: JobStatus) {
    s == Pending || s == Retrying || s == Error
  }

  /**
   * The job row after the guarded UPDATE to `queued` (65-74) and, when the
   * push failed, the fallback UPDATE back to `pending` (79-90).
   */
  function AfterPush(j: Job, pushed: bool, now: int): (r: Job)
    ensures r.transcriptId == j.transcriptId && r.attempts == j.attempts
    ensures r.idempotencyKey == j.idempotencyKey && r.force == j.force
    ensures pushed && Requeueable(j.status) ==>
      r.status == Queued && r.lockedUntil == Some(now + QueueLeaseSeconds) && r.retryNextAt == j.retryNextAt
    ensures !pushed && (Requeueable(j.status) || j.status == Queued) ==>
      r.status == Pending && r.retryNextAt == Some(now) && r.lockedUntil == None
    ensures (pushed && !Requeueable(j.status)) || (!Requeueable(j.status) && j.status != Queued) ==> r == j
  {
    var claimed := if Requeueable(j.status)
      then j.(status := Queued, lockedUntil := Some(now + QueueLeaseSeconds))
      else j;
    if !pushed && claimed.status == Queued
    then claimed.(status := Pending, retryNextAt := Some(now), lockedUntil := None)
    else claimed
  }

  /** The message that announces a job on the "analysis" queue. */
  function JobMessage(jobId: int): QueueService.Payload {
    map["analysis_job_id" := QueueService.JInt(jobId)]
  }

  /** The row a fresh call inserts: pending, no attempts, the force flag stored. */
  function NewJob(transcriptId: int, key: string, force: bool): Job {
    Job(transcriptId, Pending, 0, key, force, None, None)
  }

  predicate KeyTaken(jobs: map<int, Job>, key: string) {
    exists id :: id in jobs && jobs[id].idempotencyKey == key
  }

  /** The key a call computes for a transcript row. */
  function CallKey(transcriptId: nat, t: Transcript, force: bool, now: int): string {
    BuildIdempotencyKey(transcriptId, t.sourceUrl, force, now)
  }

  /** What enqueue_for_transcript changes: the job table, the id counter and the pending "analysis" messages. */
  datatype JobsState = JobsState(jobs: map<int, Job>, nextId: int, pending: seq<QueueService.Body>)

  /** The one row holding a key (keys are unique). */
  ghost function KeyHolder(jobs: map<int, Job>, key: string): (id: int)
    requires KeyTaken(jobs, key)
    ensures id in jobs && jobs[id].idempotencyKey == key
  {
    var id :| id in jobs && jobs[id].idempotencyKey == key; id
  }

  /** The row `id` put through AfterPush, and its message added when the queue is up. */
  function Announced(s: JobsState, id: int, before: Job, now: int, available: bool): JobsState {
    JobsState(s.jobs[id := AfterPush(before, available, now)], s.nextId,
              s.pending + if available then [QueueService.Json(JobMessage(id))] else [])
  }

  /**
   * enqueue_for_transcript over values: the id it returns and the state it
   * leaves, given the transcripts and analyses it reads and whether the
   * queue is up.
   */
  ghost function Enqueued(transcripts: map<int, Transcript>, analyses: map<int, Analysis>, s: JobsState,
                          transcriptId: nat, force: bool, now: int, available: bool): (Option<int>, JobsState)
  {
    if transcriptId !in transcripts || (!force && Analysed(analyses, transcriptId)) then (None, s)
    else
      var key := CallKey(transcriptId, transcripts[transcriptId], force, now);
      if KeyTaken(s.jobs, key) then
        var id := KeyHolder(s.jobs, key);
        if s.jobs[id].status == Done && !force then (Some(id), s)
        else (Some(id), Announced(s, id, s.jobs[id], now, available))
      else
        (Some(s.nextId), Announced(s.(nextId := s.nextId + 1), s.nextId, NewJob(transcriptId, key, force), now, available))
  }

  /** The job list after `AfterPush` was applied to one row and one message pushed. */
  method QueueAndAnnounce(db: Database, queue: QueueService.Queue, jobId: int, now: int)
    requires db.Valid() && jobId in db.jobs
    modifies db`jobs, queue`lists
    ensures db.Valid()
    ensures db.jobs == old(db.jobs)[jobId := AfterPush(old(db.jobs[jobId]), old(queue.available), now)]
    ensures queue.Pending("analysis") ==
      old(queue.Pending("analysis")) + (if old(queue.available) then [QueueService.Json(JobMessage(jobId))] else [])
    ensures forall name :: name != "analysis" ==> queue.Pending(name) == old(queue.Pending(name))
  {
    var row := db.jobs[jobId];
    var pushed := queue.Enqueue("analysis", JobMessage(jobId));
    db.jobs := db.jobs[jobId := AfterPush(row, pushed, now)];
  }

  /** The SELECT of the row holding an idempotency key, which keys being unique makes KeyHolder. */
  method FindKey(db: Database, key: string) returns (existing: Option<int>)
    requires db.Valid()
    ensures existing.None? <==> !KeyTaken(db.jobs, key)
    ensures existing.Some? ==> KeyTaken(db.jobs, key) && existing.value == KeyHolder(db.jobs, key)
  {
    var jobs := db.jobs;
    var holdsKey := id => id in jobs && jobs[id].idempotencyKey == key;
    existing := FirstMatch(1, db.nextId, holdsKey);
    if existing.None? {
      forall id | id in jobs
        ensures jobs[id].idempotencyKey != key
      {
        assert 1 <= id < db.nextId;
        assert !holdsKey(id);
      }
    } else {
      assert holdsKey(existing.value);
    }
  }

  /** The INSERT of a `pending` row for a key no row holds: it takes the next id. */
  method InsertJob(db: Database, transcriptId: nat, key: string, force: bool) returns (jobId: int)
    requires db.Valid() && !KeyTaken(db.jobs, key)
    modifies db`jobs, db`nextId
    ensures db.Valid()
    ensures jobId == old(db.nextId) && db.nextId == jobId + 1
    ensures db.jobs == old(db.jobs)[jobId := NewJob(transcriptId, key, force)]
  {
    jobId := db.FreshId();
    db.jobs := db.jobs[jobId := NewJob(transcriptId, key, force)];
  }

  /**
   * enqueue_for_transcript. It returns None for a missing transcript and,
   * unless forced, for a transcript that already has an analysis. Otherwise
   * it returns the id of the row holding the call's key: a new `pending` row
   * when no row holds it. A non-forced call that finds the key on a `done`
   * row changes nothing; in every other case the row goes through
   * AfterPush and one message is pushed, whether or not the UPDATE matched.
   */
  method EnqueueForTranscript(db: Database, queue: QueueService.Queue, transcriptId: nat, force: bool, now: int)
    returns (r: Option<int>)
    requires db.Valid()
    modifies db`jobs, db`nextId, queue`lists
    ensures db.Valid()
    ensures r.None? <==>
      transcriptId !in old(db.transcripts) || (!force && old(db.HasAnalysis(transcriptId)))
    ensures r.None? ==> db.jobs == old(db.jobs) && queue.lists == old(queue.lists)
    ensures r.Some? ==>
      var key := CallKey(transcriptId, old(db.transcripts[transcriptId]), force, now);
      && r.value in db.jobs && db.jobs[r.value].idempotencyKey == key
      && (r.value in old(db.jobs) <==> KeyTaken(old(db.jobs), key))
      && (r.value !in old(db.jobs) ==> r.value == old(db.nextId))
    ensures r.Some? && r.value in old(db.jobs) && old(db.jobs[r.value].status) == Done && !force ==>
      db.jobs == old(db.jobs) && queue.lists == old(queue.lists)
    ensures r.Some? && (r.value !in old(db.jobs) || old(db.jobs[r.value].status) != Done || force) ==>
      var before := if r.value in old(db.jobs) then old(db.jobs[r.value])
        else NewJob(transcriptId, CallKey(transcriptId, old(db.transcripts[transcriptId]), force, now), force);
      && db.jobs == old(db.jobs)[r.value := AfterPush(before, old(queue.available), now)]
      && queue.Pending("analysis") == old(queue.Pending("analysis")) +
           (if old(queue.available) then [QueueService.Json(JobMessage(r.value))] else [])
    ensures forall name :: name != "analysis" ==> queue.Pending(name) == old(queue.Pending(name))
    ensures (r, JobsState(db.jobs, db.nextId, queue.Pending("analysis"))) ==
      Enqueued(old(db.transcripts), old(db.analyses), old(JobsState(db.jobs, db.nextId, queue.Pending("analysis"))),
               transcriptId, force, now, old(queue.available))
  {
    if transcriptId !in db.transcripts {
      return None;
    }
    if !force && db.HasAnalysis(transcriptId) {
      return None;
    }
    var key := CallKey(transcriptId, db.transcripts[transcriptId], force, now);
    var existing := FindKey(db, key);
    var jobId: int;
    if existing.None? {
      jobId := InsertJob(db, transcriptId, key, force);
    } else {
      // IntegrityError: the row that already holds the key
      jobId := existing.value;
      if db.jobs[jobId].status == Done && !force {
        return Some(jobId);
      }
    }
    QueueAndAnnounce(db, queue, jobId, now);
    r := Some(jobId);
  }

  /** enqueue_job: announces an existing job id without touching its row. */
  method EnqueueJob(queue: QueueService.Queue, jobId: int) returns (pushed: bool)
    modifies queue`lists
    ensures pushed == queue.available
    ensures queue.Pending("analysis") ==
      old(queue.Pending("analysis")) + (if pushed then [QueueService.Json(JobMessage(jobId))] else [])
    ensures forall name :: name != "analysis" ==> queue.Pending(name) == old(queue.Pending(name))
  {
    pushed := queue.Enqueue("analysis", JobMessage(jobId));
  }
}
