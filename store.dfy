/**
 * The SQLite tables the job-coordination layer reads and writes, held as
 * in-memory maps from row id to row. Column names follow the schema in
 * backend/config.py; SQL NULL is `None`. All timestamps are readings of one
 * integer clock (seconds). Every table draws its AUTOINCREMENT ids from
 * one counter, so ids are positive and increase in insertion order.
 */
module Store {
  import opened Wrappers

  /** The `status` column of analysis_jobs and email_outbox, and transcripts.analysis_status. */
  datatype JobStatus = Pending | Queued | InProgress | Retrying | Done | Error
                     | OtherStatus(text: string)

  datatype Job = Job(
    transcriptId: int,
    status: JobStatus,
    attempts: int,
    idempotencyKey: string,
    force: bool,
    retryNextAt: Option<int>,
    lockedUntil: Option<int>)

  datatype OutboxRow = OutboxRow(
    analysisId: int,
    recipient: string,
    status: JobStatus,
    attempts: int,
    scheduledAt: int,
    retryNextAt: Option<int>,
    lockedUntil: Option<int>)

  datatype ScheduleRow = ScheduleRow(
    stockId: int,
    quarter: string,
    year: int,
    priority: int,
    nextCheckAt: Option<int>,
    lastStatus: Option<string>,
    lastCheckedAt: Option<int>,
    lastAvailableAt: Option<int>,
    attempts: int,
    lockedUntil: Option<int>)

  datatype TranscriptStatus = Available | Upcoming | OtherTranscriptStatus(text: string)

  /** An ISO date string together with what `datetime.fromisoformat` makes of it. */
  datatype EventDate = EventDate(text: string, at: Option<int>)

  datatype Transcript = Transcript(
    stockId: int,
    quarter: string,
    year: int,
    sourceUrl: Option<string>,
    status: TranscriptStatus,
    eventDate: Option<EventDate>,
    analysisStatus: Option<JobStatus>,
    analysisError: Option<string>,
    createdAt: int,
    updatedAt: Option<int>)

  datatype Analysis = Analysis(
    transcriptId: int,
    output: string,
    provider: string,
    modelId: Option<string>,
    prompt: string)

  datatype RunStatus = RunPending | RunInProgress | RunDone | RunError | OtherRunStatus(text: string)

  datatype GroupRun = GroupRun(
    groupId: int,
    quarter: string,
    year: int,
    status: RunStatus,
    errorMessage: Option<string>,
    output: Option<string>,
    promptSnapshot: Option<string>,
    provider: Option<string>,
    modelId: Option<string>)

  datatype Stock = Stock(symbol: Option<string>, bseCode: Option<string>, name: string)

  datatype Group = Group(
    name: string,
    active: bool,
    deepResearchPrompt: Option<string>,
    stockSummaryPrompt: Option<string>)

  /** A group_stocks row: membership of a stock in a group, with its timestamps. */
  datatype GroupStock = GroupStock(groupId: int, stockId: int, addedAt: int, updatedAt: int)

  datatype CheckStatus = Checking | Idle

  datatype TranscriptEvent = TranscriptEvent(
    stockId: int,
    quarter: string,
    year: int,
    status: TranscriptStatus,
    sourceUrl: Option<string>,
    eventDate: Option<EventDate>)

  /** Python truthiness of an optional text column. */
  predicate HasText(s: Option<string>) {
    s.Some? && s.value != ""
  }

  /** `a or b` on two optional text columns. */
  function OrText(a: Option<string>, b: Option<string>): (r: Option<string>)
    ensures HasText(a) ==> r == a
    ensures !HasText(a) ==> r == b
  {
    if HasText(a) then a else b
  }

  /** The first id in [lo, hi) satisfying `p`, as `fetchone()` returns the first row in rowid order. */
  function FirstMatch(lo: int, hi: int, p: int -> bool): (r: Option<int>)
    ensures r.Some? ==> lo <= r.value < hi && p(r.value)
    ensures r.Some? ==> forall i :: lo <= i < r.value ==> !p(i)
    ensures r.None? ==> forall i :: lo <= i < hi ==> !p(i)
    decreases hi - lo
  {
    if lo >= hi then None else if p(lo) then Some(lo) else FirstMatch(lo + 1, hi, p)
  }

  /** An element of a non-empty set of ids: the next one an iteration over the set visits. */
  method PickId(s: set<int>) returns (x: int)
    requires s != {}
    ensures x in s
  {
    assert (forall y :: y !in s) ==> s == {};
    x :| x in s;
  }

  /** A lease is free when locked_until is NULL or lies before now. */
  predicate LeaseFree(lockedUntil: Option<int>, now: int) {
    lockedUntil.None? || lockedUntil.value < now
  }

  /** A row is due when its timestamp is NULL or not after now. */
  predicate DueBy(at: Option<int>, now: int) {
    at.None? || at.value <= now
  }

  class Database {
    var jobs: map<int, Job>
    var outbox: map<int, OutboxRow>
    var schedule: map<int, ScheduleRow>
    var transcripts: map<int, Transcript>
    var analyses: map<int, Analysis>
    var runs: map<int, GroupRun>
    var events: seq<TranscriptEvent>
    var checks: map<int, CheckStatus>
    var stocks: map<int, Stock>
    var watchlist: set<int>
    var groups: map<int, Group>
    var groupStocks: seq<GroupStock>
    var recipients: seq<string>
    var defaultPromptSetting: Option<string>
    var nextId: int

    /** The schema's UNIQUE constraints, and ids below the AUTOINCREMENT counter. */
    predicate Valid()
      reads this
    {
      && nextId >= 1
      && JobKeysUnique(jobs)
      && OutboxPairsUnique(outbox)
      && SchedulePeriodsUnique(schedule)
      && RunPeriodsUnique(runs)
      && (forall id :: id in jobs ==> 1 <= id < nextId)
      && (forall id :: id in outbox ==> 1 <= id < nextId)
      && (forall id :: id in schedule ==> 1 <= id < nextId)
      && (forall id :: id in transcripts ==> 1 <= id < nextId)
      && (forall id :: id in analyses ==> 1 <= id < nextId)
      && (forall id :: id in runs ==> 1 <= id < nextId)
    }

    constructor ()
      ensures Valid()
      ensures jobs == map[] && outbox == map[] && schedule == map[] && transcripts == map[]
      ensures analyses == map[] && runs == map[] && events == [] && checks == map[]
      ensures stocks == map[] && watchlist == {} && groups == map[] && groupStocks == []
      ensures recipients == [] && defaultPromptSetting == None && nextId == 1
    {
      jobs, outbox, schedule, transcripts := map[], map[], map[], map[];
      analyses, runs, events, checks := map[], map[], [], map[];
      stocks, watchlist, groups, groupStocks := map[], {}, map[], [];
      recipients, defaultPromptSetting, nextId := [], None, 1;
    }

    /** Hands out the next AUTOINCREMENT id (`cursor.lastrowid` of the insert). */
    method FreshId() returns (id: int)
      requires Valid()
      modifies this`nextId
      ensures id == old(nextId) && nextId == id + 1 && id >= 1
      ensures Valid()
    {
      id := nextId;
      nextId := nextId + 1;
    }

    /**
     * INSERT INTO email_outbox: accepted only when no row holds the same
     * (analysis_id, recipient) pair, since the table is UNIQUE on it.
     */
    method InsertOutboxRow(row: OutboxRow) returns (id: int)
      requires Valid()
      requires forall o :: o in outbox ==> !(outbox[o].analysisId == row.analysisId && outbox[o].recipient == row.recipient)
      modifies this`outbox, this`nextId
      ensures id == old(nextId) && nextId == id + 1
      ensures outbox == old(outbox)[id := row]
      ensures Valid()
    {
      id := nextId;
      nextId := nextId + 1;
      outbox := outbox[id := row];
    }

    /** UPDATE group_research_runs ... WHERE id = ?, for a change that keeps the run's (group, quarter, year). */
    method UpdateRun(id: int, r: GroupRun)
      requires Valid() && id in runs
      requires r.groupId == runs[id].groupId && r.quarter == runs[id].quarter && r.year == runs[id].year
      modifies this`runs
      ensures runs == old(runs)[id := r]
      ensures Valid()
    {
      var u := runs[id := r];
      forall a, b | a in u && b in u && u[a].groupId == u[b].groupId && u[a].quarter == u[b].quarter && u[a].year == u[b].year
        ensures a == b
      {
        assert u[a].groupId == runs[a].groupId && u[a].quarter == runs[a].quarter && u[a].year == runs[a].year;
        assert u[b].groupId == runs[b].groupId && u[b].quarter == runs[b].quarter && u[b].year == runs[b].year;
      }
      runs := u;
    }

    /** The stock is a member of at least one group whose is_active flag is set. */
    predicate InActiveGroup(stockId: int)
      reads this`groups, this`groupStocks
    {
      exists i :: 0 <= i < |groupStocks| && groupStocks[i].stockId == stockId &&
        groupStocks[i].groupId in groups && groups[groupStocks[i].groupId].active
    }

    /** Some transcript_analyses row belongs to the transcript. */
    predicate HasAnalysis(transcriptId: int)
      reads this`analyses
    {
      Analysed(analyses, transcriptId)
    }
  }

  /** Some row of the analyses table belongs to the transcript. */
  predicate Analysed(analyses: map<int, Analysis>, transcriptId: int) {
    exists a :: a in analyses && analyses[a].transcriptId == transcriptId
  }

  predicate JobKeysUnique(jobs: map<int, Job>) {
    forall a, b :: a in jobs && b in jobs && jobs[a].idempotencyKey == jobs[b].idempotencyKey ==> a == b
  }

  predicate OutboxPairsUnique(outbox: map<int, OutboxRow>) {
    forall a, b ::
      (a in outbox && b in outbox && outbox[a].analysisId == outbox[b].analysisId &&
       outbox[a].recipient == outbox[b].recipient) ==> a == b
  }

  predicate SchedulePeriodsUnique(schedule: map<int, ScheduleRow>) {
    forall a, b ::
      (a in schedule && b in schedule && schedule[a].stockId == schedule[b].stockId &&
       schedule[a].quarter == schedule[b].quarter && schedule[a].year == schedule[b].year) ==> a == b
  }

  predicate RunPeriodsUnique(runs: map<int, GroupRun>) {
    forall a, b ::
      (a in runs && b in runs && runs[a].groupId == runs[b].groupId &&
       runs[a].quarter == runs[b].quarter && runs[a].year == runs[b].year) ==> a == b
  }
}
