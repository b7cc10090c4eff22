/**
 * The queue scheduler (backend/services/queue_scheduler_service.py): it
 * keeps transcript_fetch_schedule in step with the watchlist and the active
 * groups, sweeps due schedule rows, analysis jobs and outbox rows onto their
 * queues under a lease, and starts group research once no watchlisted check
 * of the period is pending. One pass of the `_run` loop is one atomic step
 * at one clock reading.
 *
 * A sweep's SELECT ... ORDER BY ... LIMIT is a pure function of the table
 * (`Pick`); the loop over the selected rows is a method. A push that raises
 * leaves the sweep's transaction uncommitted, so its row updates are lost,
 * while the messages pushed before it stay on the queue; which pushes of a
 * sweep the server leaves unanswered is a parameter (`down`, `Outage`).
 */
module QueueScheduler {
  import opened Wrappers
  import opened Store
  import Quarters
  import QueueService
  import TranscriptService
  import AnalysisJobs
  import EmailOutbox
  import GroupResearch

  /** The queues the sweeps push to. */
  const CheckQueue: string := "transcript_check"
  const AnalysisQueue: string := "analysis"
  const EmailQueue: string := "email"

  const CheckLeaseSeconds: int := 120
  const SweepLeaseSeconds: int := 900
  const CheckBatch: nat := 100
  const AnalysisBatch: nat := 100
  const EmailBatch: nat := 200
  const WatchlistPriority: int := 100
  const GroupOnlyPriority: int := 50

  // ---------------------------------------------------------------------
  // _get_latest_quarter
  // ---------------------------------------------------------------------

  /** The first `if` chain of `_get_latest_quarter`: the quarter the month lies in. */
  function CurrentQuarter(year: int, month: TranscriptService.Month): (r: Quarters.FyQuarter)
    ensures r == Quarters.Containing(year, month)
  {
    var r :=
      if 4 <= month <= 6 then Quarters.FyQuarter(Quarters.Q1, year + 1)
      else if 7 <= month <= 9 then Quarters.FyQuarter(Quarters.Q2, year + 1)
      else if 10 <= month <= 12 then Quarters.FyQuarter(Quarters.Q3, year + 1)
      else Quarters.FyQuarter(Quarters.Q4, year);
    Quarters.CoversUnique(r, year, month);
    r
  }

  /** _get_latest_quarter: the quarter before the one the clock's month lies in. */
  function LatestQuarter(year: int, month: TranscriptService.Month): (r: Quarters.FyQuarter)
    ensures r == Quarters.Previous(Quarters.Containing(year, month))
  {
    var c := CurrentQuarter(year, month);
    var r := match c.quarter
      case Q1 => Quarters.FyQuarter(Quarters.Q4, c.fy - 1)
      case Q2 => Quarters.FyQuarter(Quarters.Q1, c.fy)
      case Q3 => Quarters.FyQuarter(Quarters.Q2, c.fy)
      case Q4 => Quarters.FyQuarter(Quarters.Q3, c.fy);
    assert Quarters.Ordinal(r) == Quarters.Ordinal(c) - 1;
    Quarters.OrdinalInjective(r, Quarters.Previous(c));
    r
  }

  /** The period the scheduler works on is the one a concall held in the same month reports. */
  lemma LatestIsConcallQuarter(m: TranscriptService.Moment)
    ensures LatestQuarter(m.year, m.month) == TranscriptService.CalculateFyQuarter(m)
  {
  }

  // ---------------------------------------------------------------------
  // Ranking the rows a sweep selects
  // ---------------------------------------------------------------------

  /**
   * A selected row's place in an ORDER BY: `major` first, then `minor`
   * ascending with NULL first (SQLite's order), then the row id, which
   * breaks the ties SQL leaves open.
   */
  datatype Candidate = Candidate(major: int, minor: Option<int>, id: int)

  predicate MinorBefore(a: Option<int>, b: Option<int>) {
    (a.None? && b.Some?) || (a.Some? && b.Some? && a.value < b.value)
  }

  predicate Precedes(a: Candidate, b: Candidate) {
    a.major < b.major ||
    (a.major == b.major && (MinorBefore(a.minor, b.minor) || (a.minor == b.minor && a.id < b.id)))
  }

  /** `a` may come before `b`: `b` does not strictly precede it. */
  predicate NotAfter(a: Candidate, b: Candidate) {
    !Precedes(b, a)
  }

  predicate Ranked(s: seq<Candidate>) {
    forall i :: 0 <= i < |s| - 1 ==> NotAfter(s[i], s[i + 1])
  }

  lemma {:induction false} RankedEverywhere(s: seq<Candidate>, i: nat, j: nat)
    requires Ranked(s) && i < j < |s|
    ensures NotAfter(s[i], s[j])
    decreases j - i
  {
    if i + 1 < j {
      RankedEverywhere(s, i + 1, j);
    }
  }

  function Ids(s: seq<Candidate>): (r: seq<int>)
    ensures |r| == |s| && forall k :: 0 <= k < |s| ==> r[k] == s[k].id
  {
    if s == [] then [] else [s[0].id] + Ids(s[1..])
  }

  /** An id picked is the id of a candidate. */
  lemma IdsFrom(s: seq<Candidate>)
    ensures forall id :: id in Ids(s) ==> exists c :: c in s && c.id == id
  {
    forall id | id in Ids(s)
      ensures exists c :: c in s && c.id == id
    {
      var k :| 0 <= k < |s| && Ids(s)[k] == id;
      assert s[k].id == id;
    }
  }

  /** The best-ranked candidate: no candidate precedes it. */
  function Best(s: seq<Candidate>): (b: Candidate)
    requires s != []
    ensures b in s && forall c :: c in s ==> NotAfter(b, c)
    decreases |s|
  {
    if |s| == 1 then s[0]
    else
      var rest := Best(s[1..]);
      assert forall c :: c in s ==> c == s[0] || c in s[1..];
      if Precedes(rest, s[0]) then rest else s[0]
  }

  /** `s` without its first occurrence of `c`. */
  function Remove(s: seq<Candidate>, c: Candidate): (r: seq<Candidate>)
    ensures |r| == if c in s then |s| - 1 else |s|
    ensures forall d :: d in s && d != c ==> d in r
    ensures forall d :: d in r ==> d in s
    decreases |s|
  {
    if s == [] then []
    else if s[0] == c then s[1..]
    else [s[0]] + Remove(s[1..], c)
  }

  /**
   * ORDER BY ... LIMIT `limit`: the best candidate, then the best of the
   * others, until `limit` are taken or none is left.
   */
  function Top(s: seq<Candidate>, limit: nat): (r: seq<Candidate>)
    ensures |r| <= limit && |r| <= |s|
    decreases limit
  {
    if limit == 0 || s == [] then []
    else
      var b := Best(s);
      [b] + Top(Remove(s, b), limit - 1)
  }

  /** The ids of the rows a sweep selects, in the order it visits them. */
  function Pick(s: seq<Candidate>, limit: nat): (r: seq<int>)
    ensures |r| <= limit
  {
    Ids(Top(s, limit))
  }

  /**
   * The LIMIT keeps the best-ranked rows: every selected row is a
   * candidate, selected rows come in rank order, and a candidate left out
   * is ranked no better than any selected row, which only happens when the
   * batch is full.
   */
  lemma {:induction false} TopIsBest(s: seq<Candidate>, limit: nat)
    ensures forall c :: c in Top(s, limit) ==> c in s
    ensures Ranked(Top(s, limit))
    ensures forall c :: c in s && c !in Top(s, limit) ==> |Top(s, limit)| == limit
    ensures forall c, d :: c in s && c !in Top(s, limit) && d in Top(s, limit) ==> NotAfter(d, c)
    decreases limit
  {
    if limit > 0 && s != [] {
      var b := Best(s);
      var rest := Remove(s, b);
      var t := Top(rest, limit - 1);
      TopIsBest(rest, limit - 1);
      var top := [b] + t;
      assert Top(s, limit) == top;
      forall i | 0 <= i < |top| - 1
        ensures NotAfter(top[i], top[i + 1])
      {
        if i == 0 {
          assert top[1] == t[0] && t[0] in rest;
        } else {
          assert top[i] == t[i - 1] && top[i + 1] == t[i];
        }
      }
      forall c | c in s && c !in top
        ensures c in rest && c !in t
      {
      }
    }
  }

  // ---------------------------------------------------------------------
  // What the sweeps select
  // ---------------------------------------------------------------------

  /** Statuses a job sweep picks up. */
  predicate Sweepable(s: JobStatus) {
    s == Pending || s == Retrying || s == Queued
  }

  predicate InPeriod(row: ScheduleRow, quarter: string, year: int) {
    row.quarter == quarter && row.year == year
  }

  /** WHERE of `_enqueue_due_transcript_checks`. */
  predicate CheckDue(row: ScheduleRow, quarter: string, year: int, now: int) {
    InPeriod(row, quarter, year) && DueBy(row.nextCheckAt, now) && LeaseFree(row.lockedUntil, now)
  }

  /** WHERE of `_enqueue_due_analysis_jobs`. */
  predicate JobDue(j: Job, now: int) {
    Sweepable(j.status) && DueBy(j.retryNextAt, now) && LeaseFree(j.lockedUntil, now)
  }

  /** WHERE of `_enqueue_due_email_jobs`. */
  predicate OutboxDue(o: OutboxRow, now: int) {
    Sweepable(o.status) && DueBy(o.retryNextAt, now) && LeaseFree(o.lockedUntil, now)
  }

  /** ORDER BY priority DESC, next_check_at ASC. */
  function CheckRank(id: int, row: ScheduleRow): Candidate {
    Candidate(-row.priority, row.nextCheckAt, id)
  }

  /** ORDER BY created_at ASC: rows are created in id order. */
  function JobRank(id: int): Candidate {
    Candidate(0, None, id)
  }

  /** ORDER BY scheduled_at ASC. */
  function OutboxRank(id: int, o: OutboxRow): Candidate {
    Candidate(o.scheduledAt, None, id)
  }

  /** The due schedule rows with ids in [lo, hi), in id order. */
  function DueChecks(schedule: map<int, ScheduleRow>, quarter: string, year: int, now: int, lo: int, hi: int): (r: seq<Candidate>)
    decreases hi - lo
  {
    if lo >= hi then []
    else
      var here := if lo in schedule && CheckDue(schedule[lo], quarter, year, now) then [CheckRank(lo, schedule[lo])] else [];
      here + DueChecks(schedule, quarter, year, now, lo + 1, hi)
  }

  function DueJobs(jobs: map<int, Job>, now: int, lo: int, hi: int): (r: seq<Candidate>)
    decreases hi - lo
  {
    if lo >= hi then []
    else (if lo in jobs && JobDue(jobs[lo], now) then [JobRank(lo)] else []) + DueJobs(jobs, now, lo + 1, hi)
  }

  function DueOutbox(outbox: map<int, OutboxRow>, now: int, lo: int, hi: int): (r: seq<Candidate>)
    decreases hi - lo
  {
    if lo >= hi then []
    else
      var here := if lo in outbox && OutboxDue(outbox[lo], now) then [OutboxRank(lo, outbox[lo])] else [];
      here + DueOutbox(outbox, now, lo + 1, hi)
  }

  /** The candidates are exactly the due rows. */
  lemma {:induction false} DueChecksExactly(schedule: map<int, ScheduleRow>, quarter: string, year: int, now: int, lo: int, hi: int)
    ensures forall c :: c in DueChecks(schedule, quarter, year, now, lo, hi) <==>
      lo <= c.id < hi && c.id in schedule && CheckDue(schedule[c.id], quarter, year, now) && c == CheckRank(c.id, schedule[c.id])
    decreases hi - lo
  {
    if lo < hi {
      DueChecksExactly(schedule, quarter, year, now, lo + 1, hi);
    }
  }

  lemma {:induction false} DueJobsExactly(jobs: map<int, Job>, now: int, lo: int, hi: int)
    ensures forall c :: c in DueJobs(jobs, now, lo, hi) <==>
      lo <= c.id < hi && c.id in jobs && JobDue(jobs[c.id], now) && c == JobRank(c.id)
    decreases hi - lo
  {
    if lo < hi {
      DueJobsExactly(jobs, now, lo + 1, hi);
    }
  }

  lemma {:induction false} DueOutboxExactly(outbox: map<int, OutboxRow>, now: int, lo: int, hi: int)
    ensures forall c :: c in DueOutbox(outbox, now, lo, hi) <==>
      lo <= c.id < hi && c.id in outbox && OutboxDue(outbox[c.id], now) && c == OutboxRank(c.id, outbox[c.id])
    decreases hi - lo
  {
    if lo < hi {
      DueOutboxExactly(outbox, now, lo + 1, hi);
    }
  }

  /** SELECT ... LIMIT 100 of `_enqueue_due_transcript_checks`. */
  function PickChecks(schedule: map<int, ScheduleRow>, quarter: string, year: int, now: int, hi: int): (r: seq<int>)
    ensures |r| <= CheckBatch
  {
    Pick(DueChecks(schedule, quarter, year, now, 1, hi), CheckBatch)
  }

  function PickJobs(jobs: map<int, Job>, now: int, hi: int): (r: seq<int>)
    ensures |r| <= AnalysisBatch
  {
    Pick(DueJobs(jobs, now, 1, hi), AnalysisBatch)
  }

  function PickOutbox(outbox: map<int, OutboxRow>, now: int, hi: int): (r: seq<int>)
    ensures |r| <= EmailBatch
  {
    Pick(DueOutbox(outbox, now, 1, hi), EmailBatch)
  }

  /**
   * The check sweep takes only due, unlocked rows of the period, in order
   * of priority, and leaves a due row out only when 100 rows of no lower
   * priority were taken.
   */
  lemma PickChecksSelects(schedule: map<int, ScheduleRow>, quarter: string, year: int, now: int, hi: int)
    ensures forall id :: id in PickChecks(schedule, quarter, year, now, hi) ==>
      id in schedule && CheckDue(schedule[id], quarter, year, now)
    ensures forall id ::
      (1 <= id < hi && id in schedule && CheckDue(schedule[id], quarter, year, now) &&
       id !in PickChecks(schedule, quarter, year, now, hi)) ==>
        && |PickChecks(schedule, quarter, year, now, hi)| == CheckBatch
        && forall p :: p in PickChecks(schedule, quarter, year, now, hi) ==> schedule[p].priority >= schedule[id].priority
  {
    var cands := DueChecks(schedule, quarter, year, now, 1, hi);
    DueChecksExactly(schedule, quarter, year, now, 1, hi);
    TopIsBest(cands, CheckBatch);
    var top := Top(cands, CheckBatch);
    var r := PickChecks(schedule, quarter, year, now, hi);
    IdsFrom(top);
    forall id | 1 <= id < hi && id in schedule && CheckDue(schedule[id], quarter, year, now) && id !in r
      ensures |r| == CheckBatch
      ensures forall p :: p in r ==> schedule[p].priority >= schedule[id].priority
    {
      var c := CheckRank(id, schedule[id]);
      assert c in cands;
      forall p | p in r
        ensures schedule[p].priority >= schedule[id].priority
      {
        var d :| d in top && d.id == p;
        assert NotAfter(d, c);
      }
    }
  }

  /** The job sweeps take only due, unlocked rows in a status they may move to `queued`, oldest first. */
  lemma PickJobsSelects(jobs: map<int, Job>, now: int, hi: int)
    ensures forall id :: id in PickJobs(jobs, now, hi) ==> id in jobs && JobDue(jobs[id], now)
    ensures forall id :: 1 <= id < hi && id in jobs && JobDue(jobs[id], now) && id !in PickJobs(jobs, now, hi) ==>
      |PickJobs(jobs, now, hi)| == AnalysisBatch && forall p :: p in PickJobs(jobs, now, hi) ==> p < id
  {
    var cands := DueJobs(jobs, now, 1, hi);
    DueJobsExactly(jobs, now, 1, hi);
    TopIsBest(cands, AnalysisBatch);
    var top := Top(cands, AnalysisBatch);
    var r := PickJobs(jobs, now, hi);
    IdsFrom(top);
    forall id | 1 <= id < hi && id in jobs && JobDue(jobs[id], now) && id !in r
      ensures |r| == AnalysisBatch && forall p :: p in r ==> p < id
    {
      var c := JobRank(id);
      assert c in cands;
      forall p | p in r
        ensures p < id
      {
        var d :| d in top && d.id == p;
        assert d in cands && d == JobRank(p);
        assert NotAfter(d, c) && p != id;
      }
    }
  }

  lemma PickOutboxSelects(outbox: map<int, OutboxRow>, now: int, hi: int)
    ensures forall id :: id in PickOutbox(outbox, now, hi) ==> id in outbox && OutboxDue(outbox[id], now)
    ensures forall id :: 1 <= id < hi && id in outbox && OutboxDue(outbox[id], now) && id !in PickOutbox(outbox, now, hi) ==>
      && |PickOutbox(outbox, now, hi)| == EmailBatch
      && forall p :: p in PickOutbox(outbox, now, hi) ==> outbox[p].scheduledAt <= outbox[id].scheduledAt
  {
    var cands := DueOutbox(outbox, now, 1, hi);
    DueOutboxExactly(outbox, now, 1, hi);
    TopIsBest(cands, EmailBatch);
    var top := Top(cands, EmailBatch);
    var r := PickOutbox(outbox, now, hi);
    IdsFrom(top);
    forall id | 1 <= id < hi && id in outbox && OutboxDue(outbox[id], now) && id !in r
      ensures |r| == EmailBatch
      ensures forall p :: p in r ==> outbox[p].scheduledAt <= outbox[id].scheduledAt
    {
      var c := OutboxRank(id, outbox[id]);
      assert c in cands;
      forall p | p in r
        ensures outbox[p].scheduledAt <= outbox[id].scheduledAt
      {
        var d :| d in top && d.id == p;
        assert NotAfter(d, c);
      }
    }
  }

  // ---------------------------------------------------------------------
  // _sync_schedule
  // ---------------------------------------------------------------------

  /** The stocks the sync keeps scheduled: rows of `stocks` on the watchlist or in an active group. */
  function Tracked(db: Database): set<int>
    reads db`stocks, db`watchlist, db`groups, db`groupStocks
  {
    set s | s in db.stocks && (s in db.watchlist || db.InActiveGroup(s))
  }

  /** 100 for a watchlisted stock, 50 for one tracked only through a group. */
  function Priority(watchlist: set<int>, stockId: int): int {
    if stockId in watchlist then WatchlistPriority else GroupOnlyPriority
  }

  /** The upsert's DO UPDATE: the new priority, and a NULL next_check_at filled with now. */
  function Resynced(row: ScheduleRow, priority: int, now: int): ScheduleRow {
    row.(priority := priority, nextCheckAt := if row.nextCheckAt.Some? then row.nextCheckAt else Some(now))
  }

  /** A row an upsert inserts: due at `nextCheck`, never checked, no attempts, unlocked. */
  function NewScheduleRow(stockId: int, quarter: string, year: int, priority: int, nextCheck: int): ScheduleRow {
    ScheduleRow(stockId, quarter, year, priority, Some(nextCheck), None, None, None, 0, None)
  }

  predicate Scheduled(schedule: map<int, ScheduleRow>, stockId: int, quarter: string, year: int) {
    exists i :: i in schedule && schedule[i].stockId == stockId && InPeriod(schedule[i], quarter, year)
  }

  /** The row of (stock, quarter, year): the conflict target of the upserts. */
  function PeriodRow(schedule: map<int, ScheduleRow>, hi: int, stockId: int, quarter: string, year: int): Option<int> {
    FirstMatch(1, hi, i => i in schedule && schedule[i].stockId == stockId && InPeriod(schedule[i], quarter, year))
  }

  /** The first DELETE: only rows of the period whose stock is still tracked stay. */
  function Kept(schedule: map<int, ScheduleRow>, tracked: set<int>, quarter: string, year: int): map<int, ScheduleRow> {
    map i | i in schedule && InPeriod(schedule[i], quarter, year) && schedule[i].stockId in tracked :: schedule[i]
  }

  /** The DELETE the sync runs: every row when nothing is tracked, else the first DELETE. */
  function Cleared(schedule: map<int, ScheduleRow>, tracked: set<int>, quarter: string, year: int): map<int, ScheduleRow> {
    if tracked == {} then map[] else Kept(schedule, tracked, quarter, year)
  }

  /** The two DELETE statements agree: with nothing tracked the first would also delete every row. */
  lemma ClearedIsKept(schedule: map<int, ScheduleRow>, tracked: set<int>, quarter: string, year: int)
    ensures Cleared(schedule, tracked, quarter, year) == Kept(schedule, tracked, quarter, year)
  {
    if tracked == {} {
      assert Kept(schedule, tracked, quarter, year).Keys == {};
    }
  }

  /** transcript_fetch_schedule with its AUTOINCREMENT counter, as the upserts see it. */
  datatype Table = Table(rows: map<int, ScheduleRow>, nextId: int)

  predicate TableValid(t: Table) {
    && 1 <= t.nextId && SchedulePeriodsUnique(t.rows)
    && forall i :: i in t.rows ==> 1 <= i < t.nextId
  }

  /** One INSERT ... ON CONFLICT(stock_id, quarter, year) DO UPDATE of the sync loop. */
  function UpsertOne(t: Table, stockId: int, watchlist: set<int>, quarter: string, year: int, now: int): Table {
    var found := PeriodRow(t.rows, t.nextId, stockId, quarter, year);
    if found.Some? && found.value in t.rows
    then Table(t.rows[found.value := Resynced(t.rows[found.value], Priority(watchlist, stockId), now)], t.nextId)
    else Table(t.rows[t.nextId := NewScheduleRow(stockId, quarter, year, Priority(watchlist, stockId), now)], t.nextId + 1)
  }

  /** The upserts of `stocks`, in that order. */
  function UpsertAll(t: Table, stocks: seq<int>, watchlist: set<int>, quarter: string, year: int, now: int): Table
    decreases |stocks|
  {
    if stocks == [] then t
    else UpsertOne(UpsertAll(t, stocks[..|stocks| - 1], watchlist, quarter, year, now), stocks[|stocks| - 1], watchlist, quarter, year, now)
  }

  function SetOf(s: seq<int>): set<int> {
    set x | x in s
  }

  // The parts of what the sync promises, for the rows `after` left by the
  // DELETE and the upserts of the stocks in `done`.

  /** Every row is of the period and of a tracked stock. */
  ghost predicate OfPeriod(after: map<int, ScheduleRow>, tracked: set<int>, quarter: string, year: int) {
    forall i :: i in after ==> InPeriod(after[i], quarter, year) && after[i].stockId in tracked
  }

  /** A surviving row was resynced once its stock was upserted, and is untouched before. */
  ghost predicate SurvivorsResynced(before: map<int, ScheduleRow>, after: map<int, ScheduleRow>, done: set<int>,
                                    watchlist: set<int>, now: int) {
    forall i :: i in after && i in before ==>
      after[i] == if before[i].stockId in done then Resynced(before[i], Priority(watchlist, before[i].stockId), now) else before[i]
  }

  /** A new row was inserted for an upserted stock, with an id in [lo, hi). */
  ghost predicate InsertedFresh(before: map<int, ScheduleRow>, after: map<int, ScheduleRow>, done: set<int>,
                                watchlist: set<int>, quarter: string, year: int, now: int, lo: int, hi: int) {
    forall i :: i in after && i !in before ==>
      && lo <= i < hi && after[i].stockId in done
      && after[i] == NewScheduleRow(after[i].stockId, quarter, year, Priority(watchlist, after[i].stockId), now)
  }

  /** No row of the period for a tracked stock was deleted. */
  ghost predicate NoneDeleted(before: map<int, ScheduleRow>, after: map<int, ScheduleRow>, tracked: set<int>, quarter: string, year: int) {
    forall i :: i in before && InPeriod(before[i], quarter, year) && before[i].stockId in tracked ==> i in after
  }

  /** Every upserted stock has its row. */
  ghost predicate AllScheduled(after: map<int, ScheduleRow>, done: set<int>, quarter: string, year: int) {
    forall s :: s in done ==> Scheduled(after, s, quarter, year)
  }

  ghost predicate Upserted(before: map<int, ScheduleRow>, after: map<int, ScheduleRow>, tracked: set<int>, done: set<int>,
                           watchlist: set<int>, quarter: string, year: int, now: int, lo: int, hi: int)
  {
    && (forall i :: i in before ==> i < lo)
    && OfPeriod(after, tracked, quarter, year)
    && SurvivorsResynced(before, after, done, watchlist, now)
    && InsertedFresh(before, after, done, watchlist, quarter, year, now, lo, hi)
    && NoneDeleted(before, after, tracked, quarter, year)
    && AllScheduled(after, done, quarter, year)
  }

  /** What `_sync_schedule` promises: the DELETE, then the upsert of every tracked stock. */
  ghost predicate Synced(before: map<int, ScheduleRow>, after: map<int, ScheduleRow>, tracked: set<int>,
                         watchlist: set<int>, quarter: string, year: int, now: int, lo: int, hi: int)
  {
    Upserted(before, after, tracked, tracked, watchlist, quarter, year, now, lo, hi)
  }

  lemma KeptUpserted(before: map<int, ScheduleRow>, tracked: set<int>, watchlist: set<int>, quarter: string, year: int,
                     now: int, lo: int)
    requires forall i :: i in before ==> i < lo
    ensures Upserted(before, Kept(before, tracked, quarter, year), tracked, {}, watchlist, quarter, year, now, lo, lo)
  {
  }

  lemma UpsertOneValid(t: Table, stockId: int, watchlist: set<int>, quarter: string, year: int, now: int)
    requires TableValid(t)
    ensures TableValid(UpsertOne(t, stockId, watchlist, quarter, year, now))
    ensures t.nextId <= UpsertOne(t, stockId, watchlist, quarter, year, now).nextId
  {
    var p := i => i in t.rows && t.rows[i].stockId == stockId && InPeriod(t.rows[i], quarter, year);
    var found := FirstMatch(1, t.nextId, p);
    var u := UpsertOne(t, stockId, watchlist, quarter, year, now).rows;
    if found.Some? {
      assert p(found.value);
      forall a, b | a in u && b in u && u[a].stockId == u[b].stockId && u[a].quarter == u[b].quarter && u[a].year == u[b].year
        ensures a == b
      {
        assert u[a].stockId == t.rows[a].stockId && InPeriod(t.rows[a], u[a].quarter, u[a].year);
        assert u[b].stockId == t.rows[b].stockId && InPeriod(t.rows[b], u[b].quarter, u[b].year);
      }
    } else {
      forall i | i in t.rows
        ensures !p(i)
      {
        assert 1 <= i < t.nextId;
      }
    }
  }

  /** The upsert of a stock whose row of the period exists. */
  lemma ResyncStep(before: map<int, ScheduleRow>, t: Table, i: int, stockId: int, tracked: set<int>, done: set<int>,
                   watchlist: set<int>, quarter: string, year: int, now: int, lo: int)
    requires TableValid(t) && stockId in tracked && stockId !in done
    requires i in t.rows && t.rows[i].stockId == stockId && InPeriod(t.rows[i], quarter, year)
    requires Upserted(before, t.rows, tracked, done, watchlist, quarter, year, now, lo, t.nextId)
    ensures Upserted(before, t.rows[i := Resynced(t.rows[i], Priority(watchlist, stockId), now)], tracked, done + {stockId},
                     watchlist, quarter, year, now, lo, t.nextId)
  {
    assert i in before;
    var u := t.rows[i := Resynced(t.rows[i], Priority(watchlist, stockId), now)];
    forall j | j in u && j in before && before[j].stockId == stockId
      ensures j == i
    {
      assert t.rows[j].stockId == stockId && InPeriod(t.rows[j], quarter, year);
    }
    assert Scheduled(u, stockId, quarter, year) by {
      assert u[i].stockId == stockId && InPeriod(u[i], quarter, year);
    }
  }

  /** The upsert of a stock without a row of the period: an INSERT under the next id. */
  lemma InsertStep(before: map<int, ScheduleRow>, t: Table, stockId: int, tracked: set<int>, done: set<int>,
                   watchlist: set<int>, quarter: string, year: int, now: int, lo: int)
    requires TableValid(t) && stockId in tracked && stockId !in done && lo <= t.nextId
    requires !Scheduled(t.rows, stockId, quarter, year)
    requires Upserted(before, t.rows, tracked, done, watchlist, quarter, year, now, lo, t.nextId)
    ensures Upserted(before, t.rows[t.nextId := NewScheduleRow(stockId, quarter, year, Priority(watchlist, stockId), now)],
                     tracked, done + {stockId}, watchlist, quarter, year, now, lo, t.nextId + 1)
  {
    var u := t.rows[t.nextId := NewScheduleRow(stockId, quarter, year, Priority(watchlist, stockId), now)];
    assert t.nextId !in before;
    assert Scheduled(u, stockId, quarter, year) by {
      assert u[t.nextId].stockId == stockId;
    }
  }

  lemma UpsertOneStep(before: map<int, ScheduleRow>, t: Table, stockId: int, tracked: set<int>, done: set<int>,
                      watchlist: set<int>, quarter: string, year: int, now: int, lo: int)
    requires TableValid(t) && stockId in tracked && stockId !in done && lo <= t.nextId
    requires Upserted(before, t.rows, tracked, done, watchlist, quarter, year, now, lo, t.nextId)
    ensures Upserted(before, UpsertOne(t, stockId, watchlist, quarter, year, now).rows, tracked, done + {stockId},
                     watchlist, quarter, year, now, lo, UpsertOne(t, stockId, watchlist, quarter, year, now).nextId)
  {
    var p := i => i in t.rows && t.rows[i].stockId == stockId && InPeriod(t.rows[i], quarter, year);
    var found := FirstMatch(1, t.nextId, p);
    if found.Some? {
      assert p(found.value);
      ResyncStep(before, t, found.value, stockId, tracked, done, watchlist, quarter, year, now, lo);
    } else {
      assert !Scheduled(t.rows, stockId, quarter, year) by {
        forall i | i in t.rows
          ensures !p(i)
        {
          assert 1 <= i < t.nextId;
        }
      }
      InsertStep(before, t, stockId, tracked, done, watchlist, quarter, year, now, lo);
    }
  }

  /** The upserts of distinct tracked stocks keep the table valid and do what the sync promises for each. */
  lemma {:induction false} UpsertAllUpserted(before: map<int, ScheduleRow>, t0: Table, stocks: seq<int>, tracked: set<int>,
                                             watchlist: set<int>, quarter: string, year: int, now: int)
    requires TableValid(t0) && GroupResearch.Distinct(stocks) && SetOf(stocks) <= tracked
    requires Upserted(before, t0.rows, tracked, {}, watchlist, quarter, year, now, t0.nextId, t0.nextId)
    ensures var t := UpsertAll(t0, stocks, watchlist, quarter, year, now);
      && TableValid(t) && t0.nextId <= t.nextId
      && Upserted(before, t.rows, tracked, SetOf(stocks), watchlist, quarter, year, now, t0.nextId, t.nextId)
    decreases |stocks|
  {
    if stocks != [] {
      var init := stocks[..|stocks| - 1];
      var last := stocks[|stocks| - 1];
      assert stocks == init + [last];
      assert SetOf(stocks) == SetOf(init) + {last};
      UpsertAllUpserted(before, t0, init, tracked, watchlist, quarter, year, now);
      var t := UpsertAll(t0, init, watchlist, quarter, year, now);
      UpsertOneValid(t, last, watchlist, quarter, year, now);
      UpsertOneStep(before, t, last, tracked, SetOf(init), watchlist, quarter, year, now, t0.nextId);
    }
  }

  /**
   * _sync_schedule does what it promises, whatever order it visits the
   * tracked stocks in: afterwards the rows are exactly one per tracked stock,
   * for the period.
   */
  lemma SyncDoes(before: map<int, ScheduleRow>, lo: int, order: seq<int>, tracked: set<int>,
                 watchlist: set<int>, quarter: string, year: int, now: int)
    requires TableValid(Table(before, lo))
    requires GroupResearch.Distinct(order) && SetOf(order) == tracked
    ensures var t := UpsertAll(Table(Cleared(before, tracked, quarter, year), lo), order, watchlist, quarter, year, now);
      Synced(before, t.rows, tracked, watchlist, quarter, year, now, lo, t.nextId)
  {
    ClearedIsKept(before, tracked, quarter, year);
    KeptUpserted(before, tracked, watchlist, quarter, year, now, lo);
    UpsertAllUpserted(before, Table(Kept(before, tracked, quarter, year), lo), order, tracked, watchlist, quarter, year, now);
  }

  /** After a sync, the rows are exactly one per tracked stock, for the period, with its priority, and due. */
  lemma SyncedRows(before: map<int, ScheduleRow>, after: map<int, ScheduleRow>, tracked: set<int>,
                   watchlist: set<int>, quarter: string, year: int, now: int, lo: int, hi: int)
    requires Synced(before, after, tracked, watchlist, quarter, year, now, lo, hi)
    ensures forall i :: i in after ==>
      && InPeriod(after[i], quarter, year) && after[i].stockId in tracked
      && after[i].priority == Priority(watchlist, after[i].stockId)
      && after[i].nextCheckAt.Some?
    ensures forall s :: s in tracked <==> Scheduled(after, s, quarter, year)
  {
    forall i | i in after
      ensures after[i].priority == Priority(watchlist, after[i].stockId) && after[i].nextCheckAt.Some?
    {
      if i in before {
        assert before[i].stockId == after[i].stockId;
      }
    }
  }

  /** Rows resynced to their own priority and with a next check are left as they are. */
  lemma {:induction false} ResyncedSettled(b: map<int, ScheduleRow>, c: map<int, ScheduleRow>, tracked: set<int>,
                                           watchlist: set<int>, now: int)
    requires SurvivorsResynced(b, c, tracked, watchlist, now)
    requires forall i :: i in b ==>
      b[i].stockId in tracked && b[i].priority == Priority(watchlist, b[i].stockId) && b[i].nextCheckAt.Some?
    ensures forall i :: i in c && i in b ==> c[i] == b[i]
  {
    forall i | i in c && i in b
      ensures c[i] == b[i]
    {
      assert c[i] == Resynced(b[i], Priority(watchlist, b[i].stockId), now);
    }
  }

  /** A second sync finds every tracked stock's row, so it inserts nothing and deletes nothing. */
  lemma {:induction false} SameRows(b: map<int, ScheduleRow>, c: map<int, ScheduleRow>, tracked: set<int>, quarter: string, year: int)
    requires OfPeriod(b, tracked, quarter, year) && OfPeriod(c, tracked, quarter, year)
    requires forall s :: s in tracked ==> Scheduled(b, s, quarter, year)
    requires NoneDeleted(b, c, tracked, quarter, year)
    requires forall i :: i in c && i in b ==> c[i] == b[i]
    requires SchedulePeriodsUnique(c)
    ensures c.Keys == b.Keys
  {
    forall i | i in c
      ensures i in b
    {
      var s := c[i].stockId;
      assert Scheduled(b, s, quarter, year);
      var j :| j in b && b[j].stockId == s && InPeriod(b[j], quarter, year);
      assert j in c && c[j] == b[j];
    }
    forall i | i in b
      ensures i in c
    {
      assert InPeriod(b[i], quarter, year) && b[i].stockId in tracked;
    }
  }

  /** A second sync with the same watchlist and groups changes nothing: the upsert is idempotent. */
  lemma {:induction false} SyncIdempotent(a: map<int, ScheduleRow>, b: map<int, ScheduleRow>, c: map<int, ScheduleRow>,
                                          tracked: set<int>, watchlist: set<int>, quarter: string, year: int,
                                          now: int, now': int, lo: int, hi: int, lo': int, hi': int)
    requires Synced(a, b, tracked, watchlist, quarter, year, now, lo, hi)
    requires Synced(b, c, tracked, watchlist, quarter, year, now', lo', hi')
    requires SchedulePeriodsUnique(c)
    ensures c == b
  {
    SyncedRows(a, b, tracked, watchlist, quarter, year, now, lo, hi);
    ResyncedSettled(b, c, tracked, watchlist, now');
    SameRows(b, c, tracked, quarter, year);
  }

  /** UPDATE transcript_fetch_schedule ... WHERE id = ?, for a change that keeps the row's period. */
  method SetScheduleRow(db: Database, id: int, row: ScheduleRow)
    requires db.Valid() && id in db.schedule
    requires row.stockId == db.schedule[id].stockId && InPeriod(row, db.schedule[id].quarter, db.schedule[id].year)
    modifies db`schedule
    ensures db.Valid()
    ensures db.schedule == old(db.schedule)[id := row]
  {
    var u := db.schedule[id := row];
    forall a, b | a in u && b in u && u[a].stockId == u[b].stockId && u[a].quarter == u[b].quarter && u[a].year == u[b].year
      ensures a == b
    {
      assert u[a].stockId == db.schedule[a].stockId && InPeriod(db.schedule[a], u[a].quarter, u[a].year);
      assert u[b].stockId == db.schedule[b].stockId && InPeriod(db.schedule[b], u[b].quarter, u[b].year);
    }
    db.schedule := u;
  }

  lemma AppendFresh(order: seq<int>, s: int)
    requires GroupResearch.Distinct(order) && s !in SetOf(order)
    ensures GroupResearch.Distinct(order + [s]) && SetOf(order + [s]) == SetOf(order) + {s}
    ensures (order + [s])[..|order|] == order
  {
  }

  /** One upsert of the sync loop. */
  method UpsertStock(db: Database, stockId: int, quarter: string, year: int, now: int)
    requires db.Valid()
    modifies db`schedule, db`nextId
    ensures db.Valid()
    ensures Table(db.schedule, db.nextId) == UpsertOne(Table(old(db.schedule), old(db.nextId)), stockId, db.watchlist, quarter, year, now)
  {
    var t := Table(db.schedule, db.nextId);
    UpsertOneValid(t, stockId, db.watchlist, quarter, year, now);
    var u := UpsertOne(t, stockId, db.watchlist, quarter, year, now);
    db.schedule, db.nextId := u.rows, u.nextId;
  }

  /** The DELETE that opens _sync_schedule. */
  method ClearSchedule(db: Database, tracked: set<int>, quarter: string, year: int)
    requires db.Valid()
    modifies db`schedule
    ensures db.Valid()
    ensures db.schedule == Cleared(old(db.schedule), tracked, quarter, year)
  {
    if tracked == {} {
      db.schedule := map[];
    } else {
      db.schedule := Kept(db.schedule, tracked, quarter, year);
    }
  }

  /** The upsert loop of _sync_schedule, over the stocks in an order the model leaves open. */
  method UpsertStocks(db: Database, stocks: set<int>, quarter: string, year: int, now: int) returns (ghost order: seq<int>)
    requires db.Valid()
    modifies db`schedule, db`nextId
    ensures db.Valid()
    ensures GroupResearch.Distinct(order) && SetOf(order) == stocks
    ensures Table(db.schedule, db.nextId) == UpsertAll(Table(old(db.schedule), old(db.nextId)), order, db.watchlist, quarter, year, now)
  {
    ghost var t0 := Table(db.schedule, db.nextId);
    var todo := stocks;
    order := [];
    while todo != {}
      invariant todo <= stocks && SetOf(order) == stocks - todo
      invariant GroupResearch.Distinct(order)
      invariant db.Valid()
      invariant Table(db.schedule, db.nextId) == UpsertAll(t0, order, db.watchlist, quarter, year, now)
      decreases |todo|
    {
      var s := PickId(todo);
      UpsertStock(db, s, quarter, year, now);
      AppendFresh(order, s);
      order := order + [s];
      todo := todo - {s};
    }
  }

  /** The table after the DELETE of the sync and the upserts of `order`, in that order. */
  function SyncedTable(t: Table, tracked: set<int>, watchlist: set<int>, quarter: string, year: int, now: int,
                       order: seq<int>): Table {
    UpsertAll(Table(Cleared(t.rows, tracked, quarter, year), t.nextId), order, watchlist, quarter, year, now)
  }

  /**
   * _sync_schedule: the DELETE, then one upsert per tracked stock; `order` is
   * the order the stocks were visited in, which decides only the ids new
   * rows receive; whatever it is, the table is Synced.
   */
  method SyncSchedule(db: Database, quarter: string, year: int, now: int) returns (ghost order: seq<int>)
    requires db.Valid()
    modifies db`schedule, db`nextId
    ensures db.Valid()
    ensures GroupResearch.Distinct(order) && SetOf(order) == Tracked(db)
    ensures Table(db.schedule, db.nextId) ==
      SyncedTable(Table(old(db.schedule), old(db.nextId)), Tracked(db), db.watchlist, quarter, year, now, order)
    ensures Synced(old(db.schedule), db.schedule, Tracked(db), db.watchlist, quarter, year, now, old(db.nextId), db.nextId)
  {
    var tracked := Tracked(db);
    ghost var before, lo := db.schedule, db.nextId;
    ClearSchedule(db, tracked, quarter, year);
    order := UpsertStocks(db, tracked, quarter, year, now);
    SyncDoes(before, lo, order, tracked, db.watchlist, quarter, year, now);
  }

  // The sweeps. Each selects its due rows, then per row leases it and pushes
  // its message, inside one transaction: a push that raises rolls every
  // lease back, while the messages already pushed stay on the queue.

  /** The schedule after the check sweep leased the rows `ids` until `lease`. */
  function LeasedChecks(schedule: map<int, ScheduleRow>, ids: seq<int>, lease: int): map<int, ScheduleRow> {
    map i | i in schedule :: if i in ids then schedule[i].(lockedUntil := Some(lease)) else schedule[i]
  }

  /** The message of a transcript check for one schedule row. */
  function CheckPayload(row: ScheduleRow, quarter: string, year: int): QueueService.Payload {
    map["stock_id" := QueueService.JInt(row.stockId), "priority" := QueueService.JInt(row.priority),
        "quarter" := QueueService.JStr(quarter), "year" := QueueService.JInt(year),
        "reason" := QueueService.JStr("scheduled")]
  }

  function CheckMessages(schedule: map<int, ScheduleRow>, ids: seq<int>, quarter: string, year: int): (r: seq<QueueService.Body>)
    requires forall i :: i in ids ==> i in schedule
    ensures |r| == |ids|
    decreases |ids|
  {
    if ids == [] then []
    else
      var last := ids[|ids| - 1];
      assert last in ids;
      CheckMessages(schedule, ids[..|ids| - 1], quarter, year) + [QueueService.Json(CheckPayload(schedule[last], quarter, year))]
  }

  lemma CheckMessagesSnoc(s0: map<int, ScheduleRow>, ids: seq<int>, k: int, quarter: string, year: int)
    requires 0 <= k < |ids| && forall i :: i in ids ==> i in s0
    ensures CheckMessages(s0, ids[..k + 1], quarter, year) ==
      CheckMessages(s0, ids[..k], quarter, year) + [QueueService.Json(CheckPayload(s0[ids[k]], quarter, year))]
  {
    assert ids[..k + 1][..k] == ids[..k];
  }

  /** Sending the first `n` of the messages is sending a prefix of all of them. */
  lemma {:induction false} CheckMessagesPrefix(schedule: map<int, ScheduleRow>, ids: seq<int>, n: nat, quarter: string, year: int)
    requires n <= |ids| && forall i :: i in ids ==> i in schedule
    ensures CheckMessages(schedule, ids[..n], quarter, year) == CheckMessages(schedule, ids, quarter, year)[..n]
    decreases |ids|
  {
    if n < |ids| {
      var init := ids[..|ids| - 1];
      assert ids[..n] == init[..n];
      CheckMessagesPrefix(schedule, init, n, quarter, year);
    } else {
      assert ids[..n] == ids;
    }
  }

  /** A schedule table the database may hold: unique periods, ids below the counter. */
  predicate ScheduleFits(schedule: map<int, ScheduleRow>, nextId: int) {
    SchedulePeriodsUnique(schedule) && forall i :: i in schedule ==> 1 <= i < nextId
  }

  /** Leasing rows changes no row's period, so the leased table fits wherever the table did. */
  lemma LeasedChecksFit(s0: map<int, ScheduleRow>, ids: seq<int>, lease: int, nextId: int)
    requires ScheduleFits(s0, nextId)
    ensures ScheduleFits(LeasedChecks(s0, ids, lease), nextId)
  {
    var u := LeasedChecks(s0, ids, lease);
    forall a, b | a in u && b in u && u[a].stockId == u[b].stockId && u[a].quarter == u[b].quarter && u[a].year == u[b].year
      ensures a == b
    {
      assert u[a].stockId == s0[a].stockId && u[a].quarter == s0[a].quarter && u[a].year == s0[a].year;
      assert u[b].stockId == s0[b].stockId && u[b].quarter == s0[b].quarter && u[b].year == s0[b].year;
    }
  }

  /** The COMMIT of the check sweep's transaction: the schedule table it leaves. */
  method CommitSchedule(db: Database, schedule: map<int, ScheduleRow>)
    requires db.Valid() && ScheduleFits(schedule, db.nextId)
    modifies db`schedule
    ensures db.Valid() && db.schedule == schedule
  {
    db.schedule := schedule;
  }

  /**
   * The pushes of the check sweep, one per selected row of `s0`, with
   * pushes unanswered at the positions in `down`. The first push that
   * raises ends the loop; `n` pushes got through.
   */
  method PushChecks(queue: QueueService.Queue, s0: map<int, ScheduleRow>, picked: seq<int>,
                    quarter: string, year: int, down: set<nat>) returns (n: nat)
    requires forall i :: i in picked ==> i in s0
    modifies queue`lists
    ensures n == QueueService.Reach(queue.available, down, |picked|)
    ensures queue.Pending(CheckQueue) == old(queue.Pending(CheckQueue)) + CheckMessages(s0, picked[..n], quarter, year)
    ensures forall name :: name != CheckQueue ==> queue.Pending(name) == old(queue.Pending(name))
  {
    ghost var p0 := queue.Pending(CheckQueue);
    n := 0;
    while n < |picked|
      invariant n <= |picked|
      invariant queue.Pending(CheckQueue) == p0 + CheckMessages(s0, picked[..n], quarter, year)
      invariant forall name :: name != CheckQueue ==> queue.Pending(name) == old(queue.Pending(name))
      invariant forall j :: 0 <= j < n ==> QueueService.Answered(queue.available, down, j)
    {
      CheckMessagesSnoc(s0, picked, n, quarter, year);
      var pushed := QueueService.Push(queue, CheckQueue, CheckPayload(s0[picked[n]], quarter, year), down, n);
      if !pushed {
        QueueService.ReachIs(queue.available, down, n, |picked|);
        return;
      }
      n := n + 1;
    }
    QueueService.ReachIs(queue.available, down, n, |picked|);
  }

  /**
   * The check sweep's transaction. Per row the source UPDATEs the lease and
   * then pushes; the UPDATEs are seen by no one before the COMMIT, so they
   * are written here together at the COMMIT after the last push. A push
   * that raises skips the COMMIT, so every lease is rolled back, while the
   * messages pushed before it stay on the queue.
   */
  method LeaseChecks(db: Database, queue: QueueService.Queue, picked: seq<int>, lease: int, quarter: string, year: int,
                     down: set<nat>) returns (ok: bool)
    requires db.Valid() && forall i :: i in picked ==> i in db.schedule
    modifies db`schedule, queue`lists
    ensures db.Valid()
    ensures ok <==> QueueService.Reach(queue.available, down, |picked|) == |picked|
    ensures queue.Pending(CheckQueue) == old(queue.Pending(CheckQueue)) +
      CheckMessages(old(db.schedule), picked[..QueueService.Reach(queue.available, down, |picked|)], quarter, year)
    ensures db.schedule == if ok then LeasedChecks(old(db.schedule), picked, lease) else old(db.schedule)
    ensures forall name :: name != CheckQueue ==> queue.Pending(name) == old(queue.Pending(name))
  {
    var s0 := db.schedule;
    var n := PushChecks(queue, s0, picked, quarter, year, down);
    ok := n == |picked|;
    if ok {
      LeasedChecksFit(s0, picked, lease, db.nextId);
      CommitSchedule(db, LeasedChecks(s0, picked, lease));
    }
  }

  /** The rows PickChecks selects are due rows of the table. */
  lemma PickedChecksDue(schedule: map<int, ScheduleRow>, quarter: string, year: int, now: int, hi: int)
    ensures forall i :: i in PickChecks(schedule, quarter, year, now, hi) ==> i in schedule && CheckDue(schedule[i], quarter, year, now)
  {
    PickChecksSelects(schedule, quarter, year, now, hi);
  }

  /** What one sweep leaves: whether every push got through, the table, and the messages pushed. */
  datatype Swept<T> = Swept(ok: bool, rows: map<int, T>, messages: seq<QueueService.Body>)

  /**
   * The check sweep on a schedule, for a call whose pushes are unanswered at
   * the positions in `down`: the messages of the answered prefix of the
   * selected rows reach the queue; the leases are kept only when every push
   * got through.
   */
  function CheckSweep(schedule: map<int, ScheduleRow>, picked: seq<int>, quarter: string, year: int, now: int,
                      available: bool, down: set<nat>): Swept<ScheduleRow>
    requires forall i :: i in picked ==> i in schedule
  {
    var n := QueueService.Reach(available, down, |picked|);
    CheckMessagesPrefix(schedule, picked, n, quarter, year);
    Swept(n == |picked|, if n == |picked| then LeasedChecks(schedule, picked, now + CheckLeaseSeconds) else schedule,
          CheckMessages(schedule, picked[..n], quarter, year))
  }

  /** What the sweep promises. */
  lemma CheckSweepMeans(schedule: map<int, ScheduleRow>, picked: seq<int>, quarter: string, year: int, now: int,
                         available: bool, down: set<nat>)
    requires forall i :: i in picked ==> i in schedule
    ensures var s := CheckSweep(schedule, picked, quarter, year, now, available, down);
      && |s.messages| <= |picked|
      && s.messages == CheckMessages(schedule, picked, quarter, year)[..|s.messages|]
      && (s.ok <==> |s.messages| == |picked|)
      && s.rows == (if s.ok then LeasedChecks(schedule, picked, now + CheckLeaseSeconds) else schedule)
      && (!available ==> s.messages == [] && s.rows == schedule)
      && (available && (forall k :: 0 <= k < |picked| ==> k !in down) ==> s.ok)
  {
    var n := QueueService.Reach(available, down, |picked|);
    CheckMessagesPrefix(schedule, picked, n, quarter, year);
    if n > 0 {
      assert QueueService.Answered(available, down, 0);
    }
    assert LeasedChecks(schedule, [], now + CheckLeaseSeconds) == schedule;
  }

  /**
   * `_enqueue_due_transcript_checks`: the due rows of the period, best
   * first, at most 100, each leased for 120 seconds and announced on
   * "transcript_check", as CheckSweep says. `ok` is false when a push
   * raised: the leases are rolled back, while the messages pushed before it
   * stay queued.
   */
  method EnqueueDueChecks(db: Database, queue: QueueService.Queue, quarter: string, year: int, now: int, down: set<nat>)
    returns (ok: bool, picked: seq<int>)
    requires db.Valid()
    modifies db`schedule, queue`lists
    ensures db.Valid()
    ensures picked == PickChecks(old(db.schedule), quarter, year, now, db.nextId)
    ensures forall i :: i in picked ==> i in old(db.schedule) && CheckDue(old(db.schedule)[i], quarter, year, now)
    ensures var s := CheckSweep(old(db.schedule), picked, quarter, year, now, queue.available, down);
      && ok == s.ok && db.schedule == s.rows
      && queue.Pending(CheckQueue) == old(queue.Pending(CheckQueue)) + s.messages
    ensures forall name :: name != CheckQueue ==> queue.Pending(name) == old(queue.Pending(name))
  {
    picked := PickChecks(db.schedule, quarter, year, now, db.nextId);
    PickedChecksDue(db.schedule, quarter, year, now, db.nextId);
    ok := LeaseChecks(db, queue, picked, now + CheckLeaseSeconds, quarter, year, down);
  }

  /** A row the check sweep leased is not due again before its lease ends, so a sweep at the same time skips it. */
  lemma LeasedChecksSkipped(schedule: map<int, ScheduleRow>, picked: seq<int>, quarter: string, year: int, now: int, lease: int, hi: int)
    requires now <= lease
    ensures forall i :: i in picked ==> i !in PickChecks(LeasedChecks(schedule, picked, lease), quarter, year, now, hi)
    ensures forall i :: i in schedule && i !in picked ==> LeasedChecks(schedule, picked, lease)[i] == schedule[i]
  {
    PickChecksSelects(LeasedChecks(schedule, picked, lease), quarter, year, now, hi);
  }

  /** The analysis jobs after the sweep queued the rows `ids` and leased them until `lease`. */
  function SweptJobs(jobs: map<int, Job>, ids: seq<int>, lease: int): map<int, Job> {
    map i | i in jobs :: if i in ids then jobs[i].(status := Queued, lockedUntil := Some(lease)) else jobs[i]
  }

  function JobMessages(ids: seq<int>): (r: seq<QueueService.Body>)
    ensures |r| == |ids|
    decreases |ids|
  {
    if ids == [] then [] else JobMessages(ids[..|ids| - 1]) + [QueueService.Json(AnalysisJobs.JobMessage(ids[|ids| - 1]))]
  }

  lemma JobMessagesSnoc(ids: seq<int>, k: int)
    requires 0 <= k < |ids|
    ensures JobMessages(ids[..k + 1]) == JobMessages(ids[..k]) + [QueueService.Json(AnalysisJobs.JobMessage(ids[k]))]
  {
    assert ids[..k + 1][..k] == ids[..k];
  }

  predicate JobsFit(jobs: map<int, Job>, nextId: int) {
    JobKeysUnique(jobs) && forall i :: i in jobs ==> 1 <= i < nextId
  }

  /** Queuing jobs changes no job's idempotency key, so the swept table fits wherever the table did. */
  lemma SweptJobsFit(j0: map<int, Job>, ids: seq<int>, lease: int, nextId: int)
    requires JobsFit(j0, nextId)
    ensures JobsFit(SweptJobs(j0, ids, lease), nextId)
  {
    var u := SweptJobs(j0, ids, lease);
    forall a, b | a in u && b in u && u[a].idempotencyKey == u[b].idempotencyKey
      ensures a == b
    {
      assert u[a].idempotencyKey == j0[a].idempotencyKey && u[b].idempotencyKey == j0[b].idempotencyKey;
    }
  }

  /** The COMMIT of the analysis sweep's transaction: the jobs table it leaves. */
  method CommitJobs(db: Database, jobs: map<int, Job>)
    requires db.Valid() && JobsFit(jobs, db.nextId)
    modifies db`jobs
    ensures db.Valid() && db.jobs == jobs
  {
    db.jobs := jobs;
  }

  /** Sending the first `n` of the messages is sending a prefix of all of them. */
  lemma {:induction false} JobMessagesPrefix(ids: seq<int>, n: nat)
    requires n <= |ids|
    ensures JobMessages(ids[..n]) == JobMessages(ids)[..n]
    decreases |ids|
  {
    if n < |ids| {
      var init := ids[..|ids| - 1];
      assert ids[..n] == init[..n];
      JobMessagesPrefix(init, n);
    } else {
      assert ids[..n] == ids;
    }
  }

  /**
   * The pushes of the analysis sweep, one per selected job, with pushes
   * unanswered at the positions in `down`. The first push that raises ends
   * the loop; `n` pushes got through.
   */
  method PushJobs(queue: QueueService.Queue, picked: seq<int>, down: set<nat>) returns (n: nat)
    modifies queue`lists
    ensures n == QueueService.Reach(queue.available, down, |picked|)
    ensures queue.Pending(AnalysisQueue) == old(queue.Pending(AnalysisQueue)) + JobMessages(picked[..n])
    ensures forall name :: name != AnalysisQueue ==> queue.Pending(name) == old(queue.Pending(name))
  {
    ghost var p0 := queue.Pending(AnalysisQueue);
    n := 0;
    while n < |picked|
      invariant n <= |picked|
      invariant queue.Pending(AnalysisQueue) == p0 + JobMessages(picked[..n])
      invariant forall name :: name != AnalysisQueue ==> queue.Pending(name) == old(queue.Pending(name))
      invariant forall j :: 0 <= j < n ==> QueueService.Answered(queue.available, down, j)
    {
      JobMessagesSnoc(picked, n);
      var pushed := QueueService.Push(queue, AnalysisQueue, AnalysisJobs.JobMessage(picked[n]), down, n);
      if !pushed {
        QueueService.ReachIs(queue.available, down, n, |picked|);
        return;
      }
      n := n + 1;
    }
    QueueService.ReachIs(queue.available, down, n, |picked|);
  }

  /**
   * The analysis sweep's transaction: the pushes, then the COMMIT of the
   * jobs set to queued with the lease, written together as for the check
   * sweep. A push that raises skips the COMMIT.
   */
  method LeaseJobs(db: Database, queue: QueueService.Queue, picked: seq<int>, lease: int, down: set<nat>) returns (ok: bool)
    requires db.Valid() && forall i :: i in picked ==> i in db.jobs
    modifies db`jobs, queue`lists
    ensures db.Valid()
    ensures ok <==> QueueService.Reach(queue.available, down, |picked|) == |picked|
    ensures queue.Pending(AnalysisQueue) ==
      old(queue.Pending(AnalysisQueue)) + JobMessages(picked[..QueueService.Reach(queue.available, down, |picked|)])
    ensures db.jobs == if ok then SweptJobs(old(db.jobs), picked, lease) else old(db.jobs)
    ensures forall name :: name != AnalysisQueue ==> queue.Pending(name) == old(queue.Pending(name))
  {
    var j0 := db.jobs;
    var n := PushJobs(queue, picked, down);
    ok := n == |picked|;
    if ok {
      SweptJobsFit(j0, picked, lease, db.nextId);
      CommitJobs(db, SweptJobs(j0, picked, lease));
    }
  }

  lemma PickedJobsDue(jobs: map<int, Job>, now: int, hi: int)
    ensures forall i :: i in PickJobs(jobs, now, hi) ==> i in jobs && JobDue(jobs[i], now)
  {
    PickJobsSelects(jobs, now, hi);
  }

  /** The analysis sweep on the jobs table, for a call whose pushes are unanswered at the positions in `down`. */
  function JobSweep(jobs: map<int, Job>, picked: seq<int>, now: int, available: bool, down: set<nat>): Swept<Job>
    requires forall i :: i in picked ==> i in jobs
  {
    var n := QueueService.Reach(available, down, |picked|);
    JobMessagesPrefix(picked, n);
    Swept(n == |picked|, if n == |picked| then SweptJobs(jobs, picked, now + SweepLeaseSeconds) else jobs,
          JobMessages(picked[..n]))
  }

  /** What the sweep promises. */
  lemma JobSweepMeans(jobs: map<int, Job>, picked: seq<int>, now: int, available: bool, down: set<nat>)
    requires forall i :: i in picked ==> i in jobs
    ensures var s := JobSweep(jobs, picked, now, available, down);
      && |s.messages| <= |picked|
      && s.messages == JobMessages(picked)[..|s.messages|]
      && (s.ok <==> |s.messages| == |picked|)
      && s.rows == (if s.ok then SweptJobs(jobs, picked, now + SweepLeaseSeconds) else jobs)
      && (!available ==> s.messages == [] && s.rows == jobs)
      && (available && (forall k :: 0 <= k < |picked| ==> k !in down) ==> s.ok)
  {
    var n := QueueService.Reach(available, down, |picked|);
    JobMessagesPrefix(picked, n);
    if n > 0 {
      assert QueueService.Answered(available, down, 0);
    }
    assert SweptJobs(jobs, [], now + SweepLeaseSeconds) == jobs;
  }

  /**
   * `_enqueue_due_analysis_jobs`: the due jobs, oldest first, at most 100,
   * each set to queued with a 15-minute lease and announced on "analysis",
   * as JobSweep says; a push that raises rolls the updates back but not the
   * pushes before it.
   */
  method EnqueueDueAnalysisJobs(db: Database, queue: QueueService.Queue, now: int, down: set<nat>) returns (ok: bool, picked: seq<int>)
    requires db.Valid()
    modifies db`jobs, queue`lists
    ensures db.Valid()
    ensures picked == PickJobs(old(db.jobs), now, db.nextId)
    ensures forall i :: i in picked ==> i in old(db.jobs) && JobDue(old(db.jobs)[i], now)
    ensures var s := JobSweep(old(db.jobs), picked, now, queue.available, down);
      ok == s.ok && db.jobs == s.rows && queue.Pending(AnalysisQueue) == old(queue.Pending(AnalysisQueue)) + s.messages
    ensures forall name :: name != AnalysisQueue ==> queue.Pending(name) == old(queue.Pending(name))
  {
    picked := PickJobs(db.jobs, now, db.nextId);
    PickedJobsDue(db.jobs, now, db.nextId);
    ok := LeaseJobs(db, queue, picked, now + SweepLeaseSeconds, down);
  }

  /** A job the sweep queued is not due again before its lease ends, so a sweep at the same time skips it. */
  lemma SweptJobsSkipped(jobs: map<int, Job>, picked: seq<int>, now: int, lease: int, hi: int)
    requires now <= lease
    ensures forall i :: i in picked ==> i !in PickJobs(SweptJobs(jobs, picked, lease), now, hi)
    ensures forall i :: i in jobs && i !in picked ==> SweptJobs(jobs, picked, lease)[i] == jobs[i]
  {
    PickJobsSelects(SweptJobs(jobs, picked, lease), now, hi);
  }

  /** The outbox after the email sweep queued the rows `ids` and leased them until `lease`. */
  function SweptOutbox(outbox: map<int, OutboxRow>, ids: seq<int>, lease: int): map<int, OutboxRow> {
    map i | i in outbox :: if i in ids then outbox[i].(status := Queued, lockedUntil := Some(lease)) else outbox[i]
  }

  function EmailMessages(ids: seq<int>): (r: seq<QueueService.Body>)
    ensures |r| == |ids|
    decreases |ids|
  {
    if ids == [] then [] else EmailMessages(ids[..|ids| - 1]) + [EmailOutbox.OutboxMessage(ids[|ids| - 1])]
  }

  lemma EmailMessagesSnoc(ids: seq<int>, k: int)
    requires 0 <= k < |ids|
    ensures EmailMessages(ids[..k + 1]) == EmailMessages(ids[..k]) + [EmailOutbox.OutboxMessage(ids[k])]
  {
    assert ids[..k + 1][..k] == ids[..k];
  }

  predicate OutboxFits(outbox: map<int, OutboxRow>, nextId: int) {
    OutboxPairsUnique(outbox) && forall i :: i in outbox ==> 1 <= i < nextId
  }

  /** Queuing rows changes no row's (analysis, recipient) pair, so the swept outbox fits wherever the outbox did. */
  lemma SweptOutboxFit(o0: map<int, OutboxRow>, ids: seq<int>, lease: int, nextId: int)
    requires OutboxFits(o0, nextId)
    ensures OutboxFits(SweptOutbox(o0, ids, lease), nextId)
  {
    var u := SweptOutbox(o0, ids, lease);
    forall a, b | a in u && b in u && u[a].analysisId == u[b].analysisId && u[a].recipient == u[b].recipient
      ensures a == b
    {
      assert u[a].analysisId == o0[a].analysisId && u[a].recipient == o0[a].recipient;
      assert u[b].analysisId == o0[b].analysisId && u[b].recipient == o0[b].recipient;
    }
  }

  /** The COMMIT of the email sweep's transaction: the outbox it leaves. */
  method CommitOutbox(db: Database, outbox: map<int, OutboxRow>)
    requires db.Valid() && OutboxFits(outbox, db.nextId)
    modifies db`outbox
    ensures db.Valid() && db.outbox == outbox
  {
    db.outbox := outbox;
  }

  /** Sending the first `n` of the messages is sending a prefix of all of them. */
  lemma {:induction false} EmailMessagesPrefix(ids: seq<int>, n: nat)
    requires n <= |ids|
    ensures EmailMessages(ids[..n]) == EmailMessages(ids)[..n]
    decreases |ids|
  {
    if n < |ids| {
      var init := ids[..|ids| - 1];
      assert ids[..n] == init[..n];
      EmailMessagesPrefix(init, n);
    } else {
      assert ids[..n] == ids;
    }
  }

  /**
   * The pushes of the email sweep, one per selected outbox row, with pushes
   * unanswered at the positions in `down`. The first push that raises ends
   * the loop; `n` pushes got through.
   */
  method PushEmails(queue: QueueService.Queue, picked: seq<int>, down: set<nat>) returns (n: nat)
    modifies queue`lists
    ensures n == QueueService.Reach(queue.available, down, |picked|)
    ensures queue.Pending(EmailQueue) == old(queue.Pending(EmailQueue)) + EmailMessages(picked[..n])
    ensures forall name :: name != EmailQueue ==> queue.Pending(name) == old(queue.Pending(name))
  {
    ghost var p0 := queue.Pending(EmailQueue);
    n := 0;
    while n < |picked|
      invariant n <= |picked|
      invariant queue.Pending(EmailQueue) == p0 + EmailMessages(picked[..n])
      invariant forall name :: name != EmailQueue ==> queue.Pending(name) == old(queue.Pending(name))
      invariant forall j :: 0 <= j < n ==> QueueService.Answered(queue.available, down, j)
    {
      EmailMessagesSnoc(picked, n);
      var pushed := QueueService.Push(queue, EmailQueue, map["email_outbox_id" := QueueService.JInt(picked[n])], down, n);
      if !pushed {
        QueueService.ReachIs(queue.available, down, n, |picked|);
        return;
      }
      n := n + 1;
    }
    QueueService.ReachIs(queue.available, down, n, |picked|);
  }

  /**
   * The email sweep's transaction: the pushes, then the COMMIT of the rows
   * set to queued with the lease, written together as for the check sweep.
   * A push that raises skips the COMMIT.
   */
  method LeaseOutbox(db: Database, queue: QueueService.Queue, picked: seq<int>, lease: int, down: set<nat>) returns (ok: bool)
    requires db.Valid() && forall i :: i in picked ==> i in db.outbox
    modifies db`outbox, queue`lists
    ensures db.Valid()
    ensures ok <==> QueueService.Reach(queue.available, down, |picked|) == |picked|
    ensures queue.Pending(EmailQueue) ==
      old(queue.Pending(EmailQueue)) + EmailMessages(picked[..QueueService.Reach(queue.available, down, |picked|)])
    ensures db.outbox == if ok then SweptOutbox(old(db.outbox), picked, lease) else old(db.outbox)
    ensures forall name :: name != EmailQueue ==> queue.Pending(name) == old(queue.Pending(name))
  {
    var o0 := db.outbox;
    var n := PushEmails(queue, picked, down);
    ok := n == |picked|;
    if ok {
      SweptOutboxFit(o0, picked, lease, db.nextId);
      CommitOutbox(db, SweptOutbox(o0, picked, lease));
    }
  }

  lemma PickedOutboxDue(outbox: map<int, OutboxRow>, now: int, hi: int)
    ensures forall i :: i in PickOutbox(outbox, now, hi) ==> i in outbox && OutboxDue(outbox[i], now)
  {
    PickOutboxSelects(outbox, now, hi);
  }

  /** The email sweep on the outbox, for a call whose pushes are unanswered at the positions in `down`. */
  function EmailSweep(outbox: map<int, OutboxRow>, picked: seq<int>, now: int, available: bool, down: set<nat>): Swept<OutboxRow>
    requires forall i :: i in picked ==> i in outbox
  {
    var n := QueueService.Reach(available, down, |picked|);
    EmailMessagesPrefix(picked, n);
    Swept(n == |picked|, if n == |picked| then SweptOutbox(outbox, picked, now + SweepLeaseSeconds) else outbox,
          EmailMessages(picked[..n]))
  }

  /** What the sweep promises. */
  lemma EmailSweepMeans(outbox: map<int, OutboxRow>, picked: seq<int>, now: int, available: bool, down: set<nat>)
    requires forall i :: i in picked ==> i in outbox
    ensures var s := EmailSweep(outbox, picked, now, available, down);
      && |s.messages| <= |picked|
      && s.messages == EmailMessages(picked)[..|s.messages|]
      && (s.ok <==> |s.messages| == |picked|)
      && s.rows == (if s.ok then SweptOutbox(outbox, picked, now + SweepLeaseSeconds) else outbox)
      && (!available ==> s.messages == [] && s.rows == outbox)
      && (available && (forall k :: 0 <= k < |picked| ==> k !in down) ==> s.ok)
  {
    var n := QueueService.Reach(available, down, |picked|);
    EmailMessagesPrefix(picked, n);
    if n > 0 {
      assert QueueService.Answered(available, down, 0);
    }
    assert SweptOutbox(outbox, [], now + SweepLeaseSeconds) == outbox;
  }

  /**
   * `_enqueue_due_email_jobs`: the due outbox rows, earliest scheduled
   * first, at most 200, each set to queued with a 15-minute lease and
   * announced on "email", as EmailSweep says; a push that raises rolls the
   * updates back but not the pushes before it.
   */
  method EnqueueDueEmailJobs(db: Database, queue: QueueService.Queue, now: int, down: set<nat>) returns (ok: bool, picked: seq<int>)
    requires db.Valid()
    modifies db`outbox, queue`lists
    ensures db.Valid()
    ensures picked == PickOutbox(old(db.outbox), now, db.nextId)
    ensures forall i :: i in picked ==> i in old(db.outbox) && OutboxDue(old(db.outbox)[i], now)
    ensures var s := EmailSweep(old(db.outbox), picked, now, queue.available, down);
      ok == s.ok && db.outbox == s.rows && queue.Pending(EmailQueue) == old(queue.Pending(EmailQueue)) + s.messages
    ensures forall name :: name != EmailQueue ==> queue.Pending(name) == old(queue.Pending(name))
  {
    picked := PickOutbox(db.outbox, now, db.nextId);
    PickedOutboxDue(db.outbox, now, db.nextId);
    ok := LeaseOutbox(db, queue, picked, now + SweepLeaseSeconds, down);
  }

  /** An outbox row the sweep queued is not due again before its lease ends. */
  lemma SweptOutboxSkipped(outbox: map<int, OutboxRow>, picked: seq<int>, now: int, lease: int, hi: int)
    requires now <= lease
    ensures forall i :: i in picked ==> i !in PickOutbox(SweptOutbox(outbox, picked, lease), now, hi)
    ensures forall i :: i in outbox && i !in picked ==> SweptOutbox(outbox, picked, lease)[i] == outbox[i]
  {
    PickOutboxSelects(SweptOutbox(outbox, picked, lease), now, hi);
  }

  /**
   * The WHERE of `_maybe_trigger_group_research`: a watchlisted stock's row
   * of the period is due or still leased. A NULL next_check_at never
   * compares as due.
   */
  predicate StillProcessing(schedule: map<int, ScheduleRow>, watchlist: set<int>, quarter: string, year: int, now: int) {
    exists i :: i in schedule && InFlight(schedule[i], watchlist, quarter, year, now)
  }

  predicate InFlight(row: ScheduleRow, watchlist: set<int>, quarter: string, year: int, now: int) {
    && row.stockId in watchlist && InPeriod(row, quarter, year)
    && ((row.nextCheckAt.Some? && row.nextCheckAt.value <= now) || (row.lockedUntil.Some? && row.lockedUntil.value > now))
  }

  /** The SELECT 1 ... LIMIT 1 of the gate, over the ids below the counter. */
  function GateBusy(schedule: map<int, ScheduleRow>, hi: int, watchlist: set<int>, quarter: string, year: int, now: int): (busy: bool)
    requires forall i :: i in schedule ==> 1 <= i < hi
    ensures busy <==> StillProcessing(schedule, watchlist, quarter, year, now)
  {
    var holds := i => i in schedule && InFlight(schedule[i], watchlist, quarter, year, now);
    var found := FirstMatch(1, hi, holds);
    assert found.None? ==> forall i :: i in schedule ==> !holds(i);
    found.Some?
  }

  /**
   * What the gate of `_maybe_trigger_group_research` leaves in a runs table
   * `runs0` with counter `lo`: nothing while a watchlisted check of the
   * period is due or leased; otherwise one trigger per target period, in the
   * order `order`, with `started` the runs it started.
   */
  ghost predicate Gated(schedule: map<int, ScheduleRow>, watchlist: set<int>, groups: map<int, Group>,
                        gs: seq<GroupStock>, ts: map<int, Transcript>, quarter: string, year: int, now: int,
                        runs0: map<int, GroupRun>, lo: int, runs: map<int, GroupRun>, hi: int,
                        started: Option<set<int>>, order: seq<(int, string, int)>)
  {
    && (started.None? <==> StillProcessing(schedule, watchlist, quarter, year, now))
    && (started.None? ==> runs == runs0 && hi == lo)
    && (started.Some? ==>
          && GroupResearch.Distinct(order)
          && (forall k :: k in order <==> GroupResearch.Target(groups, gs, ts, k))
          && GroupResearch.RunTable(runs, hi, started.value) == GroupResearch.TriggerAll(GroupResearch.RunTable(runs0, lo, {}), order))
  }

  /**
   * `_maybe_trigger_group_research`: the group scan runs only once no
   * watchlisted check of the period is due or leased; `started` is None
   * when the gate held it back.
   */
  method MaybeTriggerGroupResearch(db: Database, quarter: string, year: int, now: int)
    returns (started: Option<set<int>>, ghost order: seq<(int, string, int)>)
    requires db.Valid()
    modifies db`runs, db`nextId
    ensures db.Valid()
    ensures Gated(db.schedule, db.watchlist, db.groups, db.groupStocks, db.transcripts, quarter, year, now,
                  old(db.runs), old(db.nextId), db.runs, db.nextId, started, order)
  {
    order := [];
    if GateBusy(db.schedule, db.nextId, db.watchlist, quarter, year, now) {
      return None, order;
    }
    var s;
    s, order := GroupResearch.CheckAndTriggerRuns(db);
    started := Some(s);
  }

  /** `if quarter and year:`: the period asked for when both are truthy, else the latest completed quarter. */
  function TargetPeriod(quarter: Option<string>, year: Option<int>, clockYear: int, clockMonth: TranscriptService.Month): (r: (string, int))
    ensures quarter.Some? && quarter.value != "" && year.Some? && year.value != 0 ==> r == (quarter.value, year.value)
    ensures !(quarter.Some? && quarter.value != "" && year.Some? && year.value != 0) ==>
      var latest := Quarters.Previous(Quarters.Containing(clockYear, clockMonth));
      r == (Quarters.Name(latest.quarter), latest.fy)
  {
    var latest := LatestQuarter(clockYear, clockMonth);
    if quarter.Some? && quarter.value != "" && year.Some? && year.value != 0 then (quarter.value, year.value)
    else (Quarters.Name(latest.quarter), latest.fy)
  }

  /** The UPDATE of trigger_for_stock: due now, attempts reset, lease released. */
  function Retriggered(row: ScheduleRow, now: int): ScheduleRow {
    row.(nextCheckAt := Some(now), attempts := 0, lockedUntil := None)
  }

  /** trigger_for_stock on the table: the UPDATE of the period's row, or the INSERT when it matched none. */
  function Triggered(t: Table, stockId: int, watchlist: set<int>, quarter: string, year: int, now: int): Table {
    var found := PeriodRow(t.rows, t.nextId, stockId, quarter, year);
    if found.Some? && found.value in t.rows
    then Table(t.rows[found.value := Retriggered(t.rows[found.value], now)], t.nextId)
    else Table(t.rows[t.nextId := NewScheduleRow(stockId, quarter, year, Priority(watchlist, stockId), now)], t.nextId + 1)
  }

  /**
   * A trigger keeps the table valid, leaves the stock's row of the period due
   * at `now` with no attempts and no lease, and changes no other row.
   */
  lemma TriggeredDue(t: Table, stockId: int, watchlist: set<int>, quarter: string, year: int, now: int)
    requires TableValid(t)
    ensures var r := Triggered(t, stockId, watchlist, quarter, year, now);
      && TableValid(r) && Scheduled(r.rows, stockId, quarter, year)
      && (forall i :: i in r.rows && r.rows[i].stockId == stockId && InPeriod(r.rows[i], quarter, year) ==>
            CheckDue(r.rows[i], quarter, year, now) && r.rows[i].attempts == 0)
      && (forall i :: i in t.rows ==> i in r.rows)
      && (forall i :: i in r.rows && !(r.rows[i].stockId == stockId && InPeriod(r.rows[i], quarter, year)) ==>
            i in t.rows && r.rows[i] == t.rows[i])
  {
    var holds := i => i in t.rows && t.rows[i].stockId == stockId && InPeriod(t.rows[i], quarter, year);
    var found := FirstMatch(1, t.nextId, holds);
    var r := Triggered(t, stockId, watchlist, quarter, year, now);
    if found.Some? {
      var f := found.value;
      assert holds(f);
      forall a, b | a in r.rows && b in r.rows && r.rows[a].stockId == r.rows[b].stockId && r.rows[a].quarter == r.rows[b].quarter && r.rows[a].year == r.rows[b].year
        ensures a == b
      {
        assert r.rows[a].stockId == t.rows[a].stockId && InPeriod(t.rows[a], r.rows[a].quarter, r.rows[a].year);
        assert r.rows[b].stockId == t.rows[b].stockId && InPeriod(t.rows[b], r.rows[b].quarter, r.rows[b].year);
      }
      forall i | i in r.rows && r.rows[i].stockId == stockId && InPeriod(r.rows[i], quarter, year)
        ensures i == f
      {
        assert t.rows[i].stockId == stockId && InPeriod(t.rows[i], quarter, year);
      }
      assert r.rows[f].stockId == stockId && InPeriod(r.rows[f], quarter, year);
    } else {
      forall i | i in t.rows
        ensures !holds(i)
      {
        assert 1 <= i < t.nextId;
      }
      assert r.rows[t.nextId].stockId == stockId && InPeriod(r.rows[t.nextId], quarter, year);
    }
  }

  /**
   * trigger_for_stock: make the stock's row of the target period due now,
   * inserting it with the watchlist priority when it is missing.
   */
  method TriggerForStock(db: Database, stockId: int, quarter: Option<string>, year: Option<int>,
                         clockYear: int, clockMonth: TranscriptService.Month, now: int)
    requires db.Valid()
    modifies db`schedule, db`nextId
    ensures db.Valid()
    ensures var (q, y) := TargetPeriod(quarter, year, clockYear, clockMonth);
      Table(db.schedule, db.nextId) == Triggered(Table(old(db.schedule), old(db.nextId)), stockId, db.watchlist, q, y, now)
  {
    var (q, y) := TargetPeriod(quarter, year, clockYear, clockMonth);
    var t := Table(db.schedule, db.nextId);
    TriggeredDue(t, stockId, db.watchlist, q, y, now);
    var r := Triggered(t, stockId, db.watchlist, q, y, now);
    db.schedule, db.nextId := r.rows, r.nextId;
  }

  /** Positions of the pushes the server does not answer in each of the three sweeps of one pass. */
  datatype Outage = Outage(checks: set<nat>, jobs: set<nat>, emails: set<nat>)

  /** The tables the sweeps update and the queues they push to. */
  datatype Backlog = Backlog(schedule: map<int, ScheduleRow>, jobs: map<int, Job>, outbox: map<int, OutboxRow>,
                             checks: seq<QueueService.Body>, analysis: seq<QueueService.Body>, email: seq<QueueService.Body>)

  function BacklogOf(db: Database, queue: QueueService.Queue): Backlog
    reads db`schedule, db`jobs, db`outbox, queue
  {
    Backlog(db.schedule, db.jobs, db.outbox, queue.Pending(CheckQueue), queue.Pending(AnalysisQueue), queue.Pending(EmailQueue))
  }

  /** Whether the sweeps of a pass got through, and what they left. */
  datatype Enqueued = Enqueued(ok: bool, after: Backlog)

  /** The rows each sweep of a pass selects. */
  datatype Picks = Picks(checks: seq<int>, jobs: seq<int>, emails: seq<int>)

  /** Every selected row is a row of its table. */
  predicate Fits(b: Backlog, p: Picks) {
    && (forall i :: i in p.checks ==> i in b.schedule)
    && (forall i :: i in p.jobs ==> i in b.jobs)
    && (forall i :: i in p.emails ==> i in b.outbox)
  }

  /** The selections of the three sweeps on `b`. */
  function PicksOf(b: Backlog, quarter: string, year: int, now: int, hi: int): (p: Picks)
    ensures Fits(b, p)
    ensures |p.checks| <= CheckBatch && |p.jobs| <= AnalysisBatch && |p.emails| <= EmailBatch
  {
    PickedChecksDue(b.schedule, quarter, year, now, hi);
    PickedJobsDue(b.jobs, now, hi);
    PickedOutboxDue(b.outbox, now, hi);
    Picks(PickChecks(b.schedule, quarter, year, now, hi), PickJobs(b.jobs, now, hi), PickOutbox(b.outbox, now, hi))
  }

  /**
   * The three sweeps of a pass, in order, on `b` with the selections `p`: a
   * sweep with a push that raised ends the pass, so the sweeps after it do
   * not run.
   */
  function Sweeps(b: Backlog, p: Picks, quarter: string, year: int, now: int, available: bool, outage: Outage): Enqueued
    requires Fits(b, p)
  {
    var c := CheckSweep(b.schedule, p.checks, quarter, year, now, available, outage.checks);
    var j := JobSweep(b.jobs, p.jobs, now, available, outage.jobs);
    var e := EmailSweep(b.outbox, p.emails, now, available, outage.emails);
    var b1 := b.(schedule := c.rows, checks := b.checks + c.messages);
    var b2 := b1.(jobs := j.rows, analysis := b.analysis + j.messages);
    if !c.ok then Enqueued(false, b1)
    else if !j.ok then Enqueued(false, b2)
    else Enqueued(e.ok, b2.(outbox := e.rows, email := b.email + e.messages))
  }

  /** The sweeps of a pass on `b`, with the rows PicksOf selects, got through (`ok`) and left `after`. */
  ghost predicate SweptTo(b: Backlog, quarter: string, year: int, now: int, hi: int, available: bool, outage: Outage,
                          ok: bool, after: Backlog) {
    Sweeps(b, PicksOf(b, quarter, year, now, hi), quarter, year, now, available, outage) == Enqueued(ok, after)
  }

  /** The sweeps of a pass, from what each sweep did. */
  lemma SweepsAfter(b: Backlog, p: Picks, quarter: string, year: int, now: int, available: bool, outage: Outage,
                    ok: bool, after: Backlog)
    requires Fits(b, p)
    requires var c := CheckSweep(b.schedule, p.checks, quarter, year, now, available, outage.checks);
      var j := JobSweep(b.jobs, p.jobs, now, available, outage.jobs);
      var e := EmailSweep(b.outbox, p.emails, now, available, outage.emails);
      && ok == (c.ok && j.ok && e.ok)
      && after == b.(schedule := c.rows, checks := b.checks + c.messages,
                     jobs := if c.ok then j.rows else b.jobs, analysis := b.analysis + if c.ok then j.messages else [],
                     outbox := if c.ok && j.ok then e.rows else b.outbox,
                     email := b.email + if c.ok && j.ok then e.messages else [])
    ensures Sweeps(b, p, quarter, year, now, available, outage) == Enqueued(ok, after)
  {
  }

  /** With the server unreachable the sweeps change nothing, and fail unless no row was selected. */
  lemma SweepsWhileDown(b: Backlog, p: Picks, quarter: string, year: int, now: int, outage: Outage)
    requires Fits(b, p)
    ensures var r := Sweeps(b, p, quarter, year, now, false, outage);
      && r.after == b
      && (r.ok <==> p.checks == [] && p.jobs == [] && p.emails == [])
  {
    var c := CheckSweep(b.schedule, p.checks, quarter, year, now, false, outage.checks);
    var j := JobSweep(b.jobs, p.jobs, now, false, outage.jobs);
    var e := EmailSweep(b.outbox, p.emails, now, false, outage.emails);
    CheckSweepMeans(b.schedule, p.checks, quarter, year, now, false, outage.checks);
    JobSweepMeans(b.jobs, p.jobs, now, false, outage.jobs);
    EmailSweepMeans(b.outbox, p.emails, now, false, outage.emails);
    assert c.rows == b.schedule && c.messages == [] && b.checks + c.messages == b.checks;
    assert j.rows == b.jobs && j.messages == [] && b.analysis + j.messages == b.analysis;
    assert e.rows == b.outbox && e.messages == [] && b.email + e.messages == b.email;
  }

  /** When every push is answered, every selected row is leased and announced. */
  lemma SweepsAllAnswered(b: Backlog, p: Picks, quarter: string, year: int, now: int)
    requires Fits(b, p)
    ensures var r := Sweeps(b, p, quarter, year, now, true, Outage({}, {}, {}));
      && r.ok
      && r.after.schedule == LeasedChecks(b.schedule, p.checks, now + CheckLeaseSeconds)
      && r.after.jobs == SweptJobs(b.jobs, p.jobs, now + SweepLeaseSeconds)
      && r.after.outbox == SweptOutbox(b.outbox, p.emails, now + SweepLeaseSeconds)
      && r.after.checks == b.checks + CheckMessages(b.schedule, p.checks, quarter, year)
      && r.after.analysis == b.analysis + JobMessages(p.jobs)
      && r.after.email == b.email + EmailMessages(p.emails)
  {
    CheckSweepMeans(b.schedule, p.checks, quarter, year, now, true, {});
    JobSweepMeans(b.jobs, p.jobs, now, true, {});
    EmailSweepMeans(b.outbox, p.emails, now, true, {});
  }

  /**
   * A push that raised leaves every message before it queued and every
   * table as it was before its own sweep: the messages of a sweep are a
   * prefix of the ones it would send, and a sweep's table changes only when
   * all of them went out.
   */
  lemma SweepsPartial(b: Backlog, p: Picks, quarter: string, year: int, now: int, available: bool, outage: Outage)
    requires Fits(b, p)
    ensures var r := Sweeps(b, p, quarter, year, now, available, outage);
      var checks := CheckMessages(b.schedule, p.checks, quarter, year);
      && b.checks <= r.after.checks <= b.checks + checks
      && (r.after.schedule != b.schedule ==> r.after.checks == b.checks + checks)
      && (r.after.checks != b.checks + checks ==> r.after.jobs == b.jobs && r.after.analysis == b.analysis)
  {
    CheckSweepMeans(b.schedule, p.checks, quarter, year, now, available, outage.checks);
    JobSweepMeans(b.jobs, p.jobs, now, available, outage.jobs);
    EmailSweepMeans(b.outbox, p.emails, now, available, outage.emails);
  }

  /** The three queue names the scheduler pushes to are different queues. */
  lemma QueueNamesDistinct()
    ensures CheckQueue != AnalysisQueue && CheckQueue != EmailQueue && AnalysisQueue != EmailQueue
  {
    assert CheckQueue[0] != AnalysisQueue[0] && CheckQueue[0] != EmailQueue[0] && AnalysisQueue[0] != EmailQueue[0];
  }

  /** The analysis sweep and then, when every one of its pushes got through, the email sweep. */
  method RunLaterSweeps(db: Database, queue: QueueService.Queue, now: int, outage: Outage)
    returns (ok: bool, ghost jobs: seq<int>, ghost emails: seq<int>)
    requires db.Valid()
    modifies db`jobs, db`outbox, queue`lists
    ensures db.Valid()
    ensures jobs == PickJobs(old(db.jobs), now, db.nextId) && emails == PickOutbox(old(db.outbox), now, db.nextId)
    ensures (forall i :: i in jobs ==> i in old(db.jobs)) && (forall i :: i in emails ==> i in old(db.outbox))
    ensures var j := JobSweep(old(db.jobs), jobs, now, queue.available, outage.jobs);
      var e := EmailSweep(old(db.outbox), emails, now, queue.available, outage.emails);
      && ok == (j.ok && e.ok)
      && db.jobs == j.rows && queue.Pending(AnalysisQueue) == old(queue.Pending(AnalysisQueue)) + j.messages
      && db.outbox == (if j.ok then e.rows else old(db.outbox))
      && queue.Pending(EmailQueue) == old(queue.Pending(EmailQueue)) + (if j.ok then e.messages else [])
    ensures forall name :: name != AnalysisQueue && name != EmailQueue ==> queue.Pending(name) == old(queue.Pending(name))
  {
    QueueNamesDistinct();
    ok, jobs := EnqueueDueAnalysisJobs(db, queue, now, outage.jobs);
    if ok {
      ok, emails := EnqueueDueEmailJobs(db, queue, now, outage.emails);
    } else {
      emails := PickOutbox(db.outbox, now, db.nextId);
      PickedOutboxDue(db.outbox, now, db.nextId);
    }
  }

  /** The sweeps of a pass, from the check sweep and, when it got through, the two later ones. */
  lemma SweepsInTurn(b: Backlog, quarter: string, year: int, now: int, hi: int, available: bool, outage: Outage,
                     checks: seq<int>, checked: bool, mid: Backlog, jobs: seq<int>, emails: seq<int>, ok: bool,
                     after: Backlog)
    requires checks == PickChecks(b.schedule, quarter, year, now, hi)
    requires forall i :: i in checks ==> i in b.schedule
    requires var c := CheckSweep(b.schedule, checks, quarter, year, now, available, outage.checks);
      checked == c.ok && mid == b.(schedule := c.rows, checks := b.checks + c.messages)
    requires checked ==>
      && jobs == PickJobs(mid.jobs, now, hi) && emails == PickOutbox(mid.outbox, now, hi)
      && (forall i :: i in jobs ==> i in mid.jobs) && (forall i :: i in emails ==> i in mid.outbox)
      && var j := JobSweep(mid.jobs, jobs, now, available, outage.jobs);
      && var e := EmailSweep(mid.outbox, emails, now, available, outage.emails);
      && ok == (j.ok && e.ok)
      && after == mid.(jobs := j.rows, analysis := mid.analysis + j.messages,
                       outbox := if j.ok then e.rows else mid.outbox,
                       email := mid.email + if j.ok then e.messages else [])
    requires !checked ==> !ok && after == mid
    ensures SweptTo(b, quarter, year, now, hi, available, outage, ok, after)
  {
    SweepsAfter(b, PicksOf(b, quarter, year, now, hi), quarter, year, now, available, outage, ok, after);
  }

  /**
   * The three sweeps in order; the first whose push raises ends the
   * sequence, as the exception leaves the pass.
   */
  method RunSweeps(db: Database, queue: QueueService.Queue, quarter: string, year: int, now: int, outage: Outage)
    returns (ok: bool)
    requires db.Valid()
    modifies db`schedule, db`jobs, db`outbox, queue`lists
    ensures db.Valid()
    ensures SweptTo(old(BacklogOf(db, queue)), quarter, year, now, db.nextId, queue.available, outage, ok, BacklogOf(db, queue))
    ensures forall name :: name != CheckQueue && name != AnalysisQueue && name != EmailQueue ==>
      queue.Pending(name) == old(queue.Pending(name))
  {
    QueueNamesDistinct();
    ghost var b := old(BacklogOf(db, queue));
    var checks;
    ok, checks := EnqueueDueChecks(db, queue, quarter, year, now, outage.checks);
    ghost var mid := BacklogOf(db, queue);
    ghost var checked := ok;
    ghost var jobs: seq<int>, emails: seq<int> := [], [];
    if ok {
      ok, jobs, emails := RunLaterSweeps(db, queue, now, outage);
      assert BacklogOf(db, queue) ==
        mid.(jobs := db.jobs, analysis := queue.Pending(AnalysisQueue), outbox := db.outbox, email := queue.Pending(EmailQueue));
    }
    SweepsInTurn(b, quarter, year, now, db.nextId, queue.available, outage, checks, checked, mid, jobs, emails, ok,
                 BacklogOf(db, queue));
  }



  /**
   * One deadline of the loop after a pass at `now`: a step that ran records
   * `now` as its last run and is due again `period` later; a step that did
   * not run leaves both as they were.
   */
  predicate Rescheduled(ran: bool, now: int, period: int, last0: Option<int>, next0: int, last: Option<int>, next: int) {
    if ran then last == Some(now) && next == now + period else last == last0 && next == next0
  }

  /**
   * The loop makes progress: with a positive period, a deadline that had
   * come when the step ran lies after `now` once the pass is over.
   */
  lemma RescheduledLater(ran: bool, now: int, period: int, last0: Option<int>, next0: int, last: Option<int>, next: int)
    requires Rescheduled(ran, now, period, last0, next0, last, next)
    requires now >= next0 ==> ran
    requires period > 0
    ensures next > now
  {
  }

  /** Which steps one pass of the loop ran, and whether it stopped at an exception. */
  datatype PassReport = PassReport(synced: bool, enqueued: bool, failed: bool, groupChecked: bool)

  class QueueSchedulerService {
    const db: Database
    const queue: QueueService.Queue
    const scheduleSyncSeconds: int
    const enqueueSeconds: int
    const groupCheckSeconds: int
    var running: bool
    var lastScheduleSync: Option<int>
    var lastEnqueue: Option<int>
    var lastGroupCheck: Option<int>
    // The deadlines `_run` keeps in local variables; they are set when the loop starts.
    var nextScheduleSync: int
    var nextEnqueue: int
    var nextGroupCheck: int

    constructor (db: Database, queue: QueueService.Queue, scheduleSyncSeconds: int, enqueueSeconds: int, groupCheckSeconds: int)
      ensures this.db == db && this.queue == queue
      ensures this.scheduleSyncSeconds == scheduleSyncSeconds && this.enqueueSeconds == enqueueSeconds
      ensures this.groupCheckSeconds == groupCheckSeconds
      ensures !running && lastScheduleSync.None? && lastEnqueue.None? && lastGroupCheck.None?
    {
      this.db := db;
      this.queue := queue;
      this.scheduleSyncSeconds := scheduleSyncSeconds;
      this.enqueueSeconds := enqueueSeconds;
      this.groupCheckSeconds := groupCheckSeconds;
      running := false;
      lastScheduleSync, lastEnqueue, lastGroupCheck := None, None, None;
      nextScheduleSync, nextEnqueue, nextGroupCheck := 0, 0, 0;
    }

    /** start: a no-op when running; otherwise the loop starts with the sync and the sweeps due at once. */
    method Start(now: int)
      modifies this`running, this`nextScheduleSync, this`nextEnqueue, this`nextGroupCheck
      ensures running
      ensures old(running) ==> unchanged(this`nextScheduleSync, this`nextEnqueue, this`nextGroupCheck)
      ensures !old(running) ==>
        nextScheduleSync == now && nextEnqueue == now && nextGroupCheck == now + groupCheckSeconds
    {
      if running {
        return;
      }
      running := true;
      nextScheduleSync, nextEnqueue, nextGroupCheck := now, now, now + groupCheckSeconds;
    }

    /** stop: the loop ends after its current pass. */
    method Stop()
      modifies this`running
      ensures !running
    {
      running := false;
    }

    /**
     * One pass of `_run` at time `now`, the clock reading (year, month)
     * giving the latest completed quarter: the sync when its deadline has
     * come, then the three sweeps when theirs has, then the group gate when
     * its deadline has. A sweep whose push raises ends the pass: the
     * enqueue deadline is not moved and the gate is not consulted. `mid` is
     * the schedule table after the sync step, `order` the order the sync
     * visited the tracked stocks in, and `started`/`runOrder` what the gate
     * did. The sweeps select their rows with PicksOf on the tables as the
     * sync left them.
     */
    method Tick(now: int, year: int, month: TranscriptService.Month, outage: Outage)
      returns (r: PassReport, ghost mid: Table, ghost order: seq<int>, ghost started: Option<set<int>>,
               ghost runOrder: seq<(int, string, int)>)
      requires running && db.Valid()
      modifies db`schedule, db`jobs, db`outbox, db`runs, db`nextId, queue`lists
      modifies this`lastScheduleSync, this`lastEnqueue, this`lastGroupCheck
      modifies this`nextScheduleSync, this`nextEnqueue, this`nextGroupCheck
      ensures db.Valid()
      ensures r.synced <==> now >= old(nextScheduleSync)
      ensures Rescheduled(r.synced, now, scheduleSyncSeconds, old(lastScheduleSync), old(nextScheduleSync),
                          lastScheduleSync, nextScheduleSync)
      ensures var (q, y) := TargetPeriod(None, None, year, month);
        && mid == (if r.synced then SyncedTable(Table(old(db.schedule), old(db.nextId)), old(Tracked(db)), old(db.watchlist), q, y, now, order)
                   else Table(old(db.schedule), old(db.nextId)))
        && (r.synced ==> Synced(old(db.schedule), mid.rows, old(Tracked(db)), old(db.watchlist), q, y, now, old(db.nextId), mid.nextId))
      ensures r.enqueued || r.failed <==> now >= old(nextEnqueue)
      ensures !(r.enqueued && r.failed)
      ensures var (q, y) := TargetPeriod(None, None, year, month);
        var b := old(BacklogOf(db, queue)).(schedule := mid.rows);
        if now >= old(nextEnqueue) then
          SweptTo(b, q, y, now, mid.nextId, queue.available, outage, !r.failed, BacklogOf(db, queue))
        else
          BacklogOf(db, queue) == b
      ensures Rescheduled(r.enqueued, now, enqueueSeconds, old(lastEnqueue), old(nextEnqueue), lastEnqueue, nextEnqueue)
      ensures r.groupChecked <==> !r.failed && now >= old(nextGroupCheck)
      ensures var (q, y) := TargetPeriod(None, None, year, month);
        r.groupChecked ==>
          Gated(db.schedule, db.watchlist, db.groups, db.groupStocks, db.transcripts, q, y, now,
                old(db.runs), mid.nextId, db.runs, db.nextId, started, runOrder)
      ensures !r.groupChecked ==> db.runs == old(db.runs) && db.nextId == mid.nextId
      ensures Rescheduled(r.groupChecked, now, groupCheckSeconds, old(lastGroupCheck), old(nextGroupCheck),
                          lastGroupCheck, nextGroupCheck)
      ensures forall name :: name != CheckQueue && name != AnalysisQueue && name != EmailQueue ==>
        queue.Pending(name) == old(queue.Pending(name))
    {
      var (quarter, fy) := TargetPeriod(None, None, year, month);
      ghost var b0 := old(BacklogOf(db, queue));
      var synced;
      synced, order := SyncStep(now, quarter, fy);
      mid := Table(db.schedule, db.nextId);
      ghost var b := BacklogOf(db, queue);
      assert b == b0.(schedule := mid.rows);
      ghost var due := now >= nextEnqueue;
      var enqueued, failed, checked;
      enqueued, failed, checked, started, runOrder := AfterSync(now, quarter, fy, outage);
      assert due ==> SweptTo(b, quarter, fy, now, mid.nextId, queue.available, outage, !failed, BacklogOf(db, queue));
      assert !due ==> BacklogOf(db, queue) == b;
      r := PassReport(synced, enqueued, failed, checked);
    }

    /** The rest of a pass after the sync: the sweeps, then, unless a push raised, the gate. */
    method AfterSync(now: int, quarter: string, year: int, outage: Outage)
      returns (enqueued: bool, failed: bool, checked: bool, started: Option<set<int>>, ghost runOrder: seq<(int, string, int)>)
      requires db.Valid()
      modifies db`schedule, db`jobs, db`outbox, db`runs, db`nextId, queue`lists
      modifies this`lastEnqueue, this`lastGroupCheck, this`nextEnqueue, this`nextGroupCheck
      ensures db.Valid()
      ensures enqueued || failed <==> now >= old(nextEnqueue)
      ensures !(enqueued && failed)
      ensures if now >= old(nextEnqueue) then
          SweptTo(old(BacklogOf(db, queue)), quarter, year, now, old(db.nextId), queue.available, outage, !failed, BacklogOf(db, queue))
        else
          BacklogOf(db, queue) == old(BacklogOf(db, queue))
      ensures Rescheduled(enqueued, now, enqueueSeconds, old(lastEnqueue), old(nextEnqueue), lastEnqueue, nextEnqueue)
      ensures checked <==> !failed && now >= old(nextGroupCheck)
      ensures checked ==>
        Gated(db.schedule, db.watchlist, db.groups, db.groupStocks, db.transcripts, quarter, year, now,
              old(db.runs), old(db.nextId), db.runs, db.nextId, started, runOrder)
      ensures !checked ==> db.runs == old(db.runs) && db.nextId == old(db.nextId)
      ensures Rescheduled(checked, now, groupCheckSeconds, old(lastGroupCheck), old(nextGroupCheck), lastGroupCheck, nextGroupCheck)
      ensures forall name :: name != CheckQueue && name != AnalysisQueue && name != EmailQueue ==>
        queue.Pending(name) == old(queue.Pending(name))
    {
      enqueued, failed := EnqueueStep(now, quarter, year, outage);
      ghost var swept := BacklogOf(db, queue);
      started, runOrder, checked := None, [], false;
      if failed {
        return;
      }
      checked, started, runOrder := GroupStep(now, quarter, year);
      assert BacklogOf(db, queue) == swept;
    }

    /** The schedule sync of a pass, when its deadline has come; `order` as for SyncSchedule. */
    method SyncStep(now: int, quarter: string, year: int) returns (ran: bool, ghost order: seq<int>)
      requires db.Valid()
      modifies db`schedule, db`nextId, this`lastScheduleSync, this`nextScheduleSync
      ensures db.Valid()
      ensures ran <==> now >= old(nextScheduleSync)
      ensures Rescheduled(ran, now, scheduleSyncSeconds, old(lastScheduleSync), old(nextScheduleSync),
                          lastScheduleSync, nextScheduleSync)
      ensures Table(db.schedule, db.nextId) ==
        if ran then SyncedTable(Table(old(db.schedule), old(db.nextId)), old(Tracked(db)), old(db.watchlist), quarter, year, now, order)
        else Table(old(db.schedule), old(db.nextId))
      ensures ran ==>
        Synced(old(db.schedule), db.schedule, old(Tracked(db)), old(db.watchlist), quarter, year, now, old(db.nextId), db.nextId)
    {
      order := [];
      ran := now >= nextScheduleSync;
      if ran {
        order := SyncSchedule(db, quarter, year, now);
        lastScheduleSync := Some(now);
        nextScheduleSync := now + scheduleSyncSeconds;
      }
    }

    /**
     * The sweeps of a pass, when their deadline has come; `failed` when a
     * push raised, which leaves the deadline where it was.
     */
    method EnqueueStep(now: int, quarter: string, year: int, outage: Outage) returns (ran: bool, failed: bool)
      requires db.Valid()
      modifies db`schedule, db`jobs, db`outbox, queue`lists, this`lastEnqueue, this`nextEnqueue
      ensures db.Valid()
      ensures ran || failed <==> now >= old(nextEnqueue)
      ensures !(ran && failed)
      ensures now >= old(nextEnqueue) ==>
        SweptTo(old(BacklogOf(db, queue)), quarter, year, now, old(db.nextId), queue.available, outage, !failed, BacklogOf(db, queue))
      ensures now < old(nextEnqueue) ==> BacklogOf(db, queue) == old(BacklogOf(db, queue)) && queue.lists == old(queue.lists)
      ensures Rescheduled(ran, now, enqueueSeconds, old(lastEnqueue), old(nextEnqueue), lastEnqueue, nextEnqueue)
      ensures forall name :: name != CheckQueue && name != AnalysisQueue && name != EmailQueue ==>
        queue.Pending(name) == old(queue.Pending(name))
    {
      if now < nextEnqueue {
        return false, false;
      }
      ran := RunSweeps(db, queue, quarter, year, now, outage);
      failed := !ran;
      Reschedule(ran, now);
    }

    /** Moves the enqueue deadline after sweeps at `now` that got through. */
    method Reschedule(ran: bool, now: int)
      modifies this`lastEnqueue, this`nextEnqueue
      ensures Rescheduled(ran, now, enqueueSeconds, old(lastEnqueue), old(nextEnqueue), lastEnqueue, nextEnqueue)
    {
      if ran {
        lastEnqueue := Some(now);
        nextEnqueue := now + enqueueSeconds;
      }
    }

    /** The group-research gate of a pass, when its deadline has come. */
    method GroupStep(now: int, quarter: string, year: int)
      returns (ran: bool, started: Option<set<int>>, ghost order: seq<(int, string, int)>)
      requires db.Valid()
      modifies db`runs, db`nextId, this`lastGroupCheck, this`nextGroupCheck
      ensures db.Valid()
      ensures ran <==> now >= old(nextGroupCheck)
      ensures Rescheduled(ran, now, groupCheckSeconds, old(lastGroupCheck), old(nextGroupCheck), lastGroupCheck, nextGroupCheck)
      ensures ran ==>
        Gated(db.schedule, db.watchlist, db.groups, db.groupStocks, db.transcripts, quarter, year, now,
              old(db.runs), old(db.nextId), db.runs, db.nextId, started, order)
      ensures !ran ==> started.None? && db.runs == old(db.runs) && db.nextId == old(db.nextId)
    {
      started, order := None, [];
      ran := now >= nextGroupCheck;
      if ran {
        started, order := MaybeTriggerGroupResearch(db, quarter, year, now);
        lastGroupCheck := Some(now);
        nextGroupCheck := now + groupCheckSeconds;
      }
    }
  }

  /**
   * trigger_now: the sync and the check sweep for the latest completed
   * quarter, outside the loop; a push that raises leaves it with `ok` false
   * (the source lets the exception reach its caller). `order` is the order
   * the sync visited the tracked stocks in.
   */
  method TriggerNow(db: Database, queue: QueueService.Queue, year: int, month: TranscriptService.Month, now: int,
                    down: set<nat>) returns (ok: bool, picked: seq<int>, ghost order: seq<int>)
    requires db.Valid()
    modifies db`schedule, db`nextId, queue`lists
    ensures db.Valid()
    ensures GroupResearch.Distinct(order) && SetOf(order) == Tracked(db)
    ensures var (q, y) := TargetPeriod(None, None, year, month);
      var t := SyncedTable(Table(old(db.schedule), old(db.nextId)), Tracked(db), db.watchlist, q, y, now, order);
      && Synced(old(db.schedule), t.rows, Tracked(db), db.watchlist, q, y, now, old(db.nextId), t.nextId)
      && db.nextId == t.nextId
      && picked == PickChecks(t.rows, q, y, now, t.nextId)
      && (forall i :: i in picked ==> i in t.rows && CheckDue(t.rows[i], q, y, now))
      && var s := CheckSweep(t.rows, picked, q, y, now, queue.available, down);
      && ok == s.ok && db.schedule == s.rows
      && queue.Pending(CheckQueue) == old(queue.Pending(CheckQueue)) + s.messages
    ensures forall name :: name != CheckQueue ==> queue.Pending(name) == old(queue.Pending(name))
  {
    var (quarter, fy) := TargetPeriod(None, None, year, month);
    order := SyncSchedule(db, quarter, fy, now);
    ok, picked := EnqueueDueChecks(db, queue, quarter, fy, now, down);
  }
}
