/**
 * The transcript checker (backend/services/transcript_fetcher_worker.py):
 * take a "transcript_check" message for one (stock, quarter, year), mark
 * the stock `checking`, ask the provider, record an available transcript
 * or an upcoming call, reschedule the period by what was found, mark the
 * stock `idle`, and request an analysis for a new available transcript of
 * a watchlisted stock that no active group holds. A failed fetch counts an
 * attempt and reschedules with backoff.
 */
module TranscriptFetcher {
  import opened Wrappers
  import opened Store
  import QueueService
  import RetryUtils
  import TranscriptService
  import AnalysisJobs

  /** The queue the worker reads. */
  const CheckQueue: string := "transcript_check"
  const AvailableRecheck: int := 43200
  const DayAwayRecheck: int := 600
  const WeekAwayRecheck: int := 3600
  const DefaultRecheck: int := 14400
  const Day: int := 86400
  const Week: int := 604800

  /** The seconds from now to the next check, by what the last check found. */
  function RecheckDelay(status: string, eventDate: Option<EventDate>, attempts: int, now: int, jitter: nat): int
    requires jitter <= RetryUtils.JitterBound(RetryUtils.DefaultBase)
  {
    if status == "available" then AvailableRecheck
    else if status == "upcoming" && eventDate.Some? && eventDate.value.text != "" && eventDate.value.at.Some?
            && eventDate.value.at.value - now <= Day then DayAwayRecheck
    else if status == "upcoming" && eventDate.Some? && eventDate.value.text != "" && eventDate.value.at.Some?
            && eventDate.value.at.value - now <= Week then WeekAwayRecheck
    else if status == "error" then RetryUtils.ComputeBackoffSeconds(attempts, jitter, RetryUtils.DefaultBase, RetryUtils.DefaultMax)
    else DefaultRecheck
  }

  /** _compute_next_check. */
  function ComputeNextCheck(status: string, eventDate: Option<EventDate>, attempts: int, now: int, jitter: nat): (next: int)
    requires jitter <= RetryUtils.JitterBound(RetryUtils.DefaultBase)
    ensures next == now + RecheckDelay(status, eventDate, attempts, now, jitter)
  {
    now + RecheckDelay(status, eventDate, attempts, now, jitter)
  }

  /**
   * The cadence: twelve hours after a transcript was found; ten minutes or
   * an hour before a call due within a day or a week; backoff after an
   * error; four hours otherwise, including an upcoming call with no
   * readable date or one more than a week away.
   */
  lemma Cadence(status: string, eventDate: Option<EventDate>, attempts: int, now: int, jitter: nat)
    requires jitter <= RetryUtils.JitterBound(RetryUtils.DefaultBase)
    ensures var d := RecheckDelay(status, eventDate, attempts, now, jitter);
      var dated := eventDate.Some? && eventDate.value.text != "" && eventDate.value.at.Some?;
      && (status == "available" ==> d == 43200)
      && (status == "upcoming" && dated && eventDate.value.at.value <= now + 86400 ==> d == 600)
      && (status == "upcoming" && dated && now + 86400 < eventDate.value.at.value <= now + 604800 ==> d == 3600)
      && (status == "upcoming" && (!dated || eventDate.value.at.value > now + 604800) ==> d == 14400)
      && (status == "error" && attempts >= 1 ==> 60 <= d <= 3630)
      && (status !in {"available", "upcoming", "error"} ==> d == 14400)
      && d > 0
  {
    RetryUtils.DefaultBackoffAtMost3630(attempts, jitter);
    if attempts >= 1 {
      RetryUtils.BackoffAtLeastBase(attempts, jitter, RetryUtils.DefaultBase, RetryUtils.DefaultMax);
    }
  }

  /** The (stock, quarter, year) a message asks about. */
  datatype CheckRequest = CheckRequest(stockId: int, quarter: string, year: int)

  /** `not stock_id or not quarter or not year` turns the message away. */
  function RequestOf(p: QueueService.Payload): (r: Option<CheckRequest>)
    ensures r.Some? <==>
      && "stock_id" in p && p["stock_id"].JInt? && p["stock_id"].i != 0
      && "quarter" in p && p["quarter"].JStr? && p["quarter"].s != ""
      && "year" in p && p["year"].JInt? && p["year"].i != 0
    ensures r.Some? ==> r.value == CheckRequest(p["stock_id"].i, p["quarter"].s, p["year"].i)
  {
    if "stock_id" in p && p["stock_id"].JInt? && p["stock_id"].i != 0
       && "quarter" in p && p["quarter"].JStr? && p["quarter"].s != ""
       && "year" in p && p["year"].JInt? && p["year"].i != 0
    then Some(CheckRequest(p["stock_id"].i, p["quarter"].s, p["year"].i))
    else None
  }

  /** The symbol the provider is asked about: stock_symbol, else bse_code; None skips the job. */
  function SymbolOf(stocks: map<int, Stock>, stockId: int): (r: Option<string>)
    ensures r.Some? <==> stockId in stocks && HasText(OrText(stocks[stockId].symbol, stocks[stockId].bseCode))
    ensures r.Some? ==> r.value != ""
  {
    if stockId !in stocks then None
    else
      var s := OrText(stocks[stockId].symbol, stocks[stockId].bseCode);
      if HasText(s) then s else None
  }

  /** The provider entries for the requested period, in the order the provider gave them. */
  function ForPeriod(ts: seq<TranscriptService.TranscriptMetadata>, quarter: string, year: int): (r: seq<TranscriptService.TranscriptMetadata>)
    ensures forall k :: 0 <= k < |r| ==> r[k].quarter == quarter && r[k].year == year
    ensures forall k :: 0 <= k < |ts| && ts[k].quarter == quarter && ts[k].year == year ==> ts[k] in r
    ensures forall x :: x in r ==> x in ts
    ensures (exists k :: 0 <= k < |ts| && ts[k].quarter == quarter && ts[k].year == year) ==>
      r != [] && r[0] == ts[FirstInPeriod(ts, quarter, year)]
  {
    if ts == [] then []
    else if ts[0].quarter == quarter && ts[0].year == year then [ts[0]] + ForPeriod(ts[1..], quarter, year)
    else
      assert forall k :: 1 <= k < |ts| ==> ts[k] == ts[1..][k - 1];
      ForPeriod(ts[1..], quarter, year)
  }

  /** The index of the first entry for the period. */
  function FirstInPeriod(ts: seq<TranscriptService.TranscriptMetadata>, quarter: string, year: int): (i: nat)
    requires exists k :: 0 <= k < |ts| && ts[k].quarter == quarter && ts[k].year == year
    ensures i < |ts| && ts[i].quarter == quarter && ts[i].year == year
    ensures forall k :: 0 <= k < i ==> !(ts[k].quarter == quarter && ts[k].year == year)
  {
    if ts[0].quarter == quarter && ts[0].year == year then 0
    else
      var k :| 0 <= k < |ts| && ts[k].quarter == quarter && ts[k].year == year;
      assert ts[1..][k - 1] == ts[k];
      1 + FirstInPeriod(ts[1..], quarter, year)
  }

  predicate InPeriod(t: Transcript, r: CheckRequest) {
    t.stockId == r.stockId && t.quarter == r.quarter && t.year == r.year
  }

  /** `SELECT ... FROM transcripts WHERE stock_id, quarter, year LIMIT 1`: the first such row by id. */
  function ExistingTranscript(ts: map<int, Transcript>, hi: int, r: CheckRequest): (found: Option<int>)
    ensures found.Some? ==> 1 <= found.value < hi && found.value in ts && InPeriod(ts[found.value], r)
    ensures found.Some? ==> forall i :: 1 <= i < found.value && i in ts ==> !InPeriod(ts[i], r)
    ensures found.None? ==> forall i :: 1 <= i < hi && i in ts ==> !InPeriod(ts[i], r)
  {
    var p := i => i in ts && InPeriod(ts[i], r);
    var found := FirstMatch(1, hi, p);
    assert forall i :: p(i) == (i in ts && InPeriod(ts[i], r));
    found
  }

  /** The row inserted for a newly found transcript. */
  function NewAvailable(r: CheckRequest, url: Option<string>, now: int): Transcript {
    Transcript(r.stockId, r.quarter, r.year, url, Available, None, None, None, now, None)
  }

  /** The UPDATE of an existing row to `available`, written only when something differs. */
  function MadeAvailable(t: Transcript, url: Option<string>, now: int): (u: Transcript)
    ensures u.status == Available && u.sourceUrl == url
    ensures u.stockId == t.stockId && u.quarter == t.quarter && u.year == t.year && u.eventDate == t.eventDate
    ensures u.analysisStatus == t.analysisStatus && u.analysisError == t.analysisError
    ensures t.status == Available && t.sourceUrl == url ==> u == t
  {
    if t.status != Available || t.sourceUrl != url then t.(status := Available, sourceUrl := url, updatedAt := Some(now)) else t
  }

  /** The row inserted for a newly announced call. */
  function NewUpcoming(r: CheckRequest, date: Option<EventDate>, now: int): Transcript {
    Transcript(r.stockId, r.quarter, r.year, None, Upcoming, date, None, None, now, None)
  }

  function DateText(d: Option<EventDate>): Option<string> {
    if d.Some? then Some(d.value.text) else None
  }

  /** The UPDATE of an existing row to `upcoming`, written only when status or date text differ. */
  function MadeUpcoming(t: Transcript, date: Option<EventDate>, now: int): (u: Transcript)
    ensures u.status == Upcoming && DateText(u.eventDate) == DateText(date)
    ensures u.stockId == t.stockId && u.quarter == t.quarter && u.year == t.year && u.sourceUrl == t.sourceUrl
    ensures u.analysisStatus == t.analysisStatus && u.analysisError == t.analysisError
    ensures t.status == Upcoming && DateText(t.eventDate) == DateText(date) ==> u == t
  {
    if t.status != Upcoming || DateText(t.eventDate) != DateText(date)
      then t.(status := Upcoming, eventDate := date, updatedAt := Some(now)) else t
  }

  predicate ScheduledFor(s: ScheduleRow, r: CheckRequest) {
    s.stockId == r.stockId && s.quarter == r.quarter && s.year == r.year
  }

  /** `SELECT attempts FROM transcript_fetch_schedule WHERE ...`, or 0 without a row. */
  function ScheduledAttempts(schedule: map<int, ScheduleRow>, hi: int, r: CheckRequest): int {
    var found := FirstMatch(1, hi, i => i in schedule && ScheduledFor(schedule[i], r));
    if found.Some? then schedule[found.value].attempts else 0
  }

  /** The schedule row after a completed check. */
  function Checked(s: ScheduleRow, status: string, next: int, now: int): ScheduleRow {
    s.(lastStatus := Some(status), lastCheckedAt := Some(now),
       lastAvailableAt := if status == "available" then Some(now) else s.lastAvailableAt,
       nextCheckAt := Some(next), attempts := 0, lockedUntil := None)
  }

  /** The schedule row after a failed fetch. */
  function Errored(s: ScheduleRow, attempts: int, next: int, now: int): ScheduleRow {
    s.(lastStatus := Some("error"), lastCheckedAt := Some(now), nextCheckAt := Some(next),
       attempts := attempts, lockedUntil := None)
  }

  /** The SET clause of one of the two schedule UPDATEs. */
  datatype ScheduleUpdate =
    | CheckedAs(status: string, next: int, now: int)
    | ErroredAs(attempts: int, next: int, now: int)

  function Applied(u: ScheduleUpdate, s: ScheduleRow): (t: ScheduleRow)
    ensures t.stockId == s.stockId && t.quarter == s.quarter && t.year == s.year
    ensures t.lockedUntil.None? && t.lastCheckedAt == Some(u.now) && t.nextCheckAt == Some(u.next)
  {
    match u
    case CheckedAs(status, next, now) => Checked(s, status, next, now)
    case ErroredAs(attempts, next, now) => Errored(s, attempts, next, now)
  }

  /** An UPDATE ... WHERE stock_id, quarter, year: every row of the period rewritten, the others kept. */
  function UpdatePeriod(schedule: map<int, ScheduleRow>, r: CheckRequest, u: ScheduleUpdate): (v: map<int, ScheduleRow>)
    ensures v.Keys == schedule.Keys
    ensures forall i :: i in schedule ==> v[i] == if ScheduledFor(schedule[i], r) then Applied(u, schedule[i]) else schedule[i]
  {
    map i | i in schedule :: if ScheduledFor(schedule[i], r) then Applied(u, schedule[i]) else schedule[i]
  }

  /** Rewriting rows never touches their period, so one row per period is kept. */
  lemma UpdatePeriodKeepsUnique(schedule: map<int, ScheduleRow>, r: CheckRequest, u: ScheduleUpdate)
    requires SchedulePeriodsUnique(schedule)
    ensures SchedulePeriodsUnique(UpdatePeriod(schedule, r, u))
  {
    var v := UpdatePeriod(schedule, r, u);
    forall a, b | a in v && b in v && v[a].stockId == v[b].stockId && v[a].quarter == v[b].quarter && v[a].year == v[b].year
      ensures a == b
    {
      assert schedule[a].stockId == v[a].stockId && schedule[a].quarter == v[a].quarter && schedule[a].year == v[a].year;
      assert schedule[b].stockId == v[b].stockId && schedule[b].quarter == v[b].quarter && schedule[b].year == v[b].year;
    }
  }

  /** _handle_fetch_error: one more attempt, `error`, the backoff, the lease freed, the stock `idle`. */
  method HandleFetchError(db: Database, r: CheckRequest, now: int, jitter: nat)
    requires db.Valid()
    requires jitter <= RetryUtils.JitterBound(RetryUtils.DefaultBase)
    modifies db`schedule, db`checks
    ensures db.Valid()
    ensures var attempts := ScheduledAttempts(old(db.schedule), old(db.nextId), r) + 1;
      var next := ComputeNextCheck("error", None, attempts, now, jitter);
      db.schedule == UpdatePeriod(old(db.schedule), r, ErroredAs(attempts, next, now))
    ensures db.checks == old(db.checks)[r.stockId := Idle]
  {
    var attempts := ScheduledAttempts(db.schedule, db.nextId, r) + 1;
    var next := ComputeNextCheck("error", None, attempts, now, jitter);
    UpdatePeriodKeepsUnique(db.schedule, r, ErroredAs(attempts, next, now));
    db.schedule := UpdatePeriod(db.schedule, r, ErroredAs(attempts, next, now));
    db.checks := db.checks[r.stockId := Idle];
  }

  /** The status phase 3 records: an available transcript wins over an upcoming call. */
  function FoundStatus(available: seq<TranscriptService.TranscriptMetadata>, upcoming: seq<TranscriptService.TranscriptMetadata>): string {
    if available != [] then "available" else if upcoming != [] then "upcoming" else "none"
  }

  /** The event date phase 3 hands to the schedule: the first upcoming call's, when no transcript was found. */
  function FoundDate(available: seq<TranscriptService.TranscriptMetadata>, upcoming: seq<TranscriptService.TranscriptMetadata>): Option<EventDate> {
    if available == [] && upcoming != [] then upcoming[0].eventDate else None
  }

  /**
   * The transcripts table after phase 3: the first available transcript is
   * inserted or written over the period's row (a fresh row gets id `hi`);
   * failing that the first upcoming call is; with neither, nothing changes.
   */
  function Persisted(ts: map<int, Transcript>, hi: int, r: CheckRequest,
                     available: seq<TranscriptService.TranscriptMetadata>,
                     upcoming: seq<TranscriptService.TranscriptMetadata>, now: int): map<int, Transcript>
  {
    var found := ExistingTranscript(ts, hi, r);
    if available != [] then
      if found.None? then ts[hi := NewAvailable(r, available[0].sourceUrl, now)]
      else ts[found.value := MadeAvailable(ts[found.value], available[0].sourceUrl, now)]
    else if upcoming != [] then
      if found.None? then ts[hi := NewUpcoming(r, upcoming[0].eventDate, now)]
      else ts[found.value := MadeUpcoming(ts[found.value], upcoming[0].eventDate, now)]
    else ts
  }

  /** The transcript_events rows phase 3 appends: one per finding, none without one. */
  function Logged(r: CheckRequest, available: seq<TranscriptService.TranscriptMetadata>,
                  upcoming: seq<TranscriptService.TranscriptMetadata>): seq<TranscriptEvent>
  {
    if available != [] then [TranscriptEvent(r.stockId, r.quarter, r.year, Available, available[0].sourceUrl, None)]
    else if upcoming != [] then [TranscriptEvent(r.stockId, r.quarter, r.year, Upcoming, None, upcoming[0].eventDate)]
    else []
  }

  /** Whether phase 3 inserts a row, and so takes the next id. */
  function Inserts(ts: map<int, Transcript>, hi: int, r: CheckRequest,
                   available: seq<TranscriptService.TranscriptMetadata>,
                   upcoming: seq<TranscriptService.TranscriptMetadata>): bool
  {
    (available != [] || upcoming != []) && ExistingTranscript(ts, hi, r).None?
  }

  /**
   * After phase 3 the period has a row that says what was found: an
   * available transcript with the provider's url, or an upcoming call with
   * its date; no row of another period changes.
   */
  lemma PersistedRecordsFinding(ts: map<int, Transcript>, hi: int, r: CheckRequest,
                                available: seq<TranscriptService.TranscriptMetadata>,
                                upcoming: seq<TranscriptService.TranscriptMetadata>, now: int)
    requires forall i :: i in ts ==> 1 <= i < hi
    ensures var u := Persisted(ts, hi, r, available, upcoming, now);
      && ts.Keys <= u.Keys
      && (available != [] ==> exists i :: i in u && InPeriod(u[i], r) && u[i].status == Available && u[i].sourceUrl == available[0].sourceUrl)
      && (available == [] && upcoming != [] ==>
            exists i :: i in u && InPeriod(u[i], r) && u[i].status == Upcoming && DateText(u[i].eventDate) == DateText(upcoming[0].eventDate))
      && (available == [] && upcoming == [] ==> u == ts)
      && (forall i :: i in ts && !InPeriod(ts[i], r) ==> u[i] == ts[i])
  {
    var found := ExistingTranscript(ts, hi, r);
    var u := Persisted(ts, hi, r, available, upcoming, now);
    var id := if found.Some? then found.value else hi;
    if available != [] || upcoming != [] {
      assert id in u && InPeriod(u[id], r);
    }
  }

  /** Phase 3 adds a row exactly when it inserts, and then only one. */
  lemma PersistedGrowth(ts: map<int, Transcript>, hi: int, r: CheckRequest,
                        available: seq<TranscriptService.TranscriptMetadata>,
                        upcoming: seq<TranscriptService.TranscriptMetadata>, now: int)
    requires forall i :: i in ts ==> 1 <= i < hi
    ensures var u := Persisted(ts, hi, r, available, upcoming, now);
      u.Keys == if Inserts(ts, hi, r, available, upcoming) then ts.Keys + {hi} else ts.Keys
  {
    assert hi !in ts;
  }

  /**
   * A second check that finds the same thing changes no transcript row:
   * the guarded UPDATE is skipped, and the row is found rather than
   * inserted again.
   */
  lemma PersistedIdempotent(ts: map<int, Transcript>, hi: int, r: CheckRequest,
                            available: seq<TranscriptService.TranscriptMetadata>,
                            upcoming: seq<TranscriptService.TranscriptMetadata>, now: int, later: int)
    requires hi >= 1
    requires forall i :: i in ts ==> 1 <= i < hi
    ensures var once := Persisted(ts, hi, r, available, upcoming, now);
      var hi2 := if Inserts(ts, hi, r, available, upcoming) then hi + 1 else hi;
      && !Inserts(once, hi2, r, available, upcoming)
      && Persisted(once, hi2, r, available, upcoming, later) == once
  {
    var once := Persisted(ts, hi, r, available, upcoming, now);
    var found := ExistingTranscript(ts, hi, r);
    var hi2 := if Inserts(ts, hi, r, available, upcoming) then hi + 1 else hi;
    if available != [] || upcoming != [] {
      var again := ExistingTranscript(once, hi2, r);
      if found.None? {
        assert hi2 == hi + 1;
        assert hi in once && InPeriod(once[hi], r);
        assert 1 <= hi < hi2;
        assert again.Some?;
      } else {
        var id := found.value;
        assert hi2 == hi && 1 <= id < hi;
        assert id in once && InPeriod(once[id], r);
        assert again.Some?;
        assert again == Some(id);
      }
    }
  }

  /** The available branch of phase 3: upsert the row, log the event. */
  method RecordAvailable(db: Database, r: CheckRequest, url: Option<string>, now: int) returns (transcriptId: int)
    requires db.Valid()
    modifies db`transcripts, db`nextId, db`events
    ensures db.Valid()
    ensures transcriptId >= 1 && transcriptId in db.transcripts
    ensures var found := ExistingTranscript(old(db.transcripts), old(db.nextId), r);
      && (found.None? ==>
            (transcriptId == old(db.nextId) && db.nextId == transcriptId + 1
             && db.transcripts == old(db.transcripts)[transcriptId := NewAvailable(r, url, now)]))
      && (found.Some? ==>
            (transcriptId == found.value && db.nextId == old(db.nextId)
             && db.transcripts == old(db.transcripts)[transcriptId := MadeAvailable(old(db.transcripts[transcriptId]), url, now)]))
    ensures db.events == old(db.events) + [TranscriptEvent(r.stockId, r.quarter, r.year, Available, url, None)]
  {
    var existing := ExistingTranscript(db.transcripts, db.nextId, r);
    if existing.None? {
      transcriptId := db.FreshId();
      db.transcripts := db.transcripts[transcriptId := NewAvailable(r, url, now)];
    } else {
      transcriptId := existing.value;
      db.transcripts := db.transcripts[transcriptId := MadeAvailable(db.transcripts[transcriptId], url, now)];
    }
    db.events := db.events + [TranscriptEvent(r.stockId, r.quarter, r.year, Available, url, None)];
  }

  /** The upcoming branch of phase 3: upsert the row with the call's date, log the event. */
  method RecordUpcoming(db: Database, r: CheckRequest, date: Option<EventDate>, now: int)
    requires db.Valid()
    modifies db`transcripts, db`nextId, db`events
    ensures db.Valid()
    ensures var found := ExistingTranscript(old(db.transcripts), old(db.nextId), r);
      && (found.None? ==>
            (db.nextId == old(db.nextId) + 1
             && db.transcripts == old(db.transcripts)[old(db.nextId) := NewUpcoming(r, date, now)]))
      && (found.Some? ==>
            (db.nextId == old(db.nextId)
             && db.transcripts == old(db.transcripts)[found.value := MadeUpcoming(old(db.transcripts[found.value]), date, now)]))
    ensures db.events == old(db.events) + [TranscriptEvent(r.stockId, r.quarter, r.year, Upcoming, None, date)]
  {
    var existing := ExistingTranscript(db.transcripts, db.nextId, r);
    if existing.None? {
      var id := db.FreshId();
      db.transcripts := db.transcripts[id := NewUpcoming(r, date, now)];
    } else {
      db.transcripts := db.transcripts[existing.value := MadeUpcoming(db.transcripts[existing.value], date, now)];
    }
    db.events := db.events + [TranscriptEvent(r.stockId, r.quarter, r.year, Upcoming, None, date)];
  }

  /** The schedule UPDATE and the `idle` mark that close phase 3. */
  method RecordCheck(db: Database, r: CheckRequest, status: string, eventDate: Option<EventDate>, now: int, jitter: nat)
    requires db.Valid()
    requires jitter <= RetryUtils.JitterBound(RetryUtils.DefaultBase)
    modifies db`schedule, db`checks
    ensures db.Valid()
    ensures var next := ComputeNextCheck(status, eventDate, ScheduledAttempts(old(db.schedule), old(db.nextId), r), now, jitter);
      db.schedule == UpdatePeriod(old(db.schedule), r, CheckedAs(status, next, now))
    ensures db.checks == old(db.checks)[r.stockId := Idle]
  {
    var attempts := ScheduledAttempts(db.schedule, db.nextId, r);
    var next := ComputeNextCheck(status, eventDate, attempts, now, jitter);
    UpdatePeriodKeepsUnique(db.schedule, r, CheckedAs(status, next, now));
    db.schedule := UpdatePeriod(db.schedule, r, CheckedAs(status, next, now));
    db.checks := db.checks[r.stockId := Idle];
  }

  /** Whether a newly available transcript triggers an analysis: watchlisted, and in no active group. */
  predicate Eligible(db: Database, stockId: int)
    reads db`watchlist, db`groups, db`groupStocks
  {
    stockId in db.watchlist && !db.InActiveGroup(stockId)
  }

  /**
   * Phase 3: persist the finding, reschedule, mark `idle`. Returns the
   * recorded status and the transcript an analysis is due for.
   */
  method PersistFindings(db: Database, r: CheckRequest,
                         available: seq<TranscriptService.TranscriptMetadata>,
                         upcoming: seq<TranscriptService.TranscriptMetadata>, now: int, jitter: nat)
    returns (status: string, trigger: Option<int>)
    requires db.Valid()
    requires jitter <= RetryUtils.JitterBound(RetryUtils.DefaultBase)
    modifies db`transcripts, db`nextId, db`events, db`schedule, db`checks
    ensures db.Valid()
    ensures status == FoundStatus(available, upcoming)
    ensures db.transcripts == Persisted(old(db.transcripts), old(db.nextId), r, available, upcoming, now)
    ensures db.nextId == old(db.nextId) + if Inserts(old(db.transcripts), old(db.nextId), r, available, upcoming) then 1 else 0
    ensures db.events == old(db.events) + Logged(r, available, upcoming)
    ensures var next := ComputeNextCheck(status, FoundDate(available, upcoming),
                                         ScheduledAttempts(old(db.schedule), old(db.nextId), r), now, jitter);
      db.schedule == UpdatePeriod(old(db.schedule), r, CheckedAs(status, next, now))
    ensures db.checks == old(db.checks)[r.stockId := Idle]
    ensures trigger.Some? <==> available != [] && old(Eligible(db, r.stockId))
    ensures trigger.Some? ==> trigger.value >= 1 && trigger.value in db.transcripts && InPeriod(db.transcripts[trigger.value], r)
  {
    status := FoundStatus(available, upcoming);
    trigger := None;
    if available != [] {
      var eligible := Eligible(db, r.stockId);
      var transcriptId := RecordAvailable(db, r, available[0].sourceUrl, now);
      if eligible {
        trigger := Some(transcriptId);
      }
    } else if upcoming != [] {
      RecordUpcoming(db, r, upcoming[0].eventDate, now);
    }
    RecordCheck(db, r, status, FoundDate(available, upcoming), now, jitter);
  }

  /** What one `_process_job` call did. */
  datatype CheckOutcome =
    | Ignored
    | FetchFailed
    | Recorded(status: string, analysisFor: Option<int>, analysisJob: Option<int>)

  /**
   * Phase 4 over tables that held `jobs0` with counter `nextId0` and an
   * "analysis" queue that held `pending0` and now holds `pending` (`up`:
   * whether its server answers): for a transcript due an analysis, the job
   * returned and the jobs, counter and queue are what
   * `enqueue_for_transcript` without force makes of them; with none due,
   * nothing changes and no job is returned.
   */
  ghost predicate AnalysisRequested(db: Database, jobs0: map<int, Job>, nextId0: int, pending0: seq<QueueService.Body>,
                                    up: bool, pending: seq<QueueService.Body>, trigger: Option<int>, job: Option<int>,
                                    now: int)
    reads db`transcripts, db`nextId, db`jobs, db`analyses
  {
    && (trigger.None? ==> job.None? && db.jobs == jobs0 && db.nextId == nextId0 && pending == pending0)
    && (trigger.Some? ==>
          && trigger.value >= 1
          && (job, AnalysisJobs.JobsState(db.jobs, db.nextId, pending)) ==
               AnalysisJobs.Enqueued(db.transcripts, db.analyses, AnalysisJobs.JobsState(jobs0, nextId0, pending0),
                                     trigger.value, false, now, up))
  }

  /**
   * What phases 3 and 4 leave for request `r`, with the provider's answers
   * for the period, in tables that held `transcripts0`, `events0`,
   * `schedule0` and `jobs0` with counter `nextId0`, and an "analysis" queue
   * that held `pending0` and now holds `pending` (`up`: whether its server
   * answers): the findings persisted and logged, the period rescheduled by
   * what was found, and for an available transcript of an eligible stock
   * the jobs, the counter and the queue as `enqueue_for_transcript`
   * without force leaves them; otherwise none of the three changes.
   */
  ghost predicate FindingsRecorded(transcripts0: map<int, Transcript>, nextId0: int, events0: seq<TranscriptEvent>,
                                   schedule0: map<int, ScheduleRow>, jobs0: map<int, Job>, db: Database, r: CheckRequest,
                                   available: seq<TranscriptService.TranscriptMetadata>,
                                   upcoming: seq<TranscriptService.TranscriptMetadata>, now: int, jitter: nat,
                                   outcome: CheckOutcome, pending0: seq<QueueService.Body>, up: bool,
                                   pending: seq<QueueService.Body>)
    reads db`transcripts, db`nextId, db`events, db`schedule, db`jobs, db`analyses, db`watchlist, db`groups, db`groupStocks
  {
    && jitter <= RetryUtils.JitterBound(RetryUtils.DefaultBase)
    && outcome.Recorded?
    && outcome.status == FoundStatus(available, upcoming)
    && db.transcripts == Persisted(transcripts0, nextId0, r, available, upcoming, now)
    && db.events == events0 + Logged(r, available, upcoming)
    && db.schedule == UpdatePeriod(schedule0, r, CheckedAs(outcome.status,
         ComputeNextCheck(outcome.status, FoundDate(available, upcoming), ScheduledAttempts(schedule0, nextId0, r), now, jitter), now))
    && (outcome.analysisFor.Some? <==> available != [] && Eligible(db, r.stockId))
    && (outcome.analysisFor.Some? ==>
          outcome.analysisFor.value in db.transcripts && InPeriod(db.transcripts[outcome.analysisFor.value], r))
    && AnalysisRequested(db, jobs0, nextId0 + if Inserts(transcripts0, nextId0, r, available, upcoming) then 1 else 0,
                         pending0, up, pending, outcome.analysisFor, outcome.analysisJob, now)
  }

  /** Phases 3 and 4 put together: what `PersistFindings` and then `RequestAnalysis` promise is `FindingsRecorded`. */
  lemma FindingsFrom(transcripts0: map<int, Transcript>, nextId0: int, events0: seq<TranscriptEvent>,
                     schedule0: map<int, ScheduleRow>, jobs0: map<int, Job>, db: Database, r: CheckRequest,
                     available: seq<TranscriptService.TranscriptMetadata>,
                     upcoming: seq<TranscriptService.TranscriptMetadata>, now: int, jitter: nat,
                     status: string, trigger: Option<int>, job: Option<int>, nextId1: int,
                     pending0: seq<QueueService.Body>, up: bool, pending: seq<QueueService.Body>)
    requires jitter <= RetryUtils.JitterBound(RetryUtils.DefaultBase)
    requires status == FoundStatus(available, upcoming)
    requires db.transcripts == Persisted(transcripts0, nextId0, r, available, upcoming, now)
    requires nextId1 == nextId0 + if Inserts(transcripts0, nextId0, r, available, upcoming) then 1 else 0
    requires db.events == events0 + Logged(r, available, upcoming)
    requires db.schedule == UpdatePeriod(schedule0, r, CheckedAs(status,
               ComputeNextCheck(status, FoundDate(available, upcoming), ScheduledAttempts(schedule0, nextId0, r), now, jitter), now))
    requires trigger.Some? <==> available != [] && Eligible(db, r.stockId)
    requires trigger.Some? ==> trigger.value >= 1 && trigger.value in db.transcripts && InPeriod(db.transcripts[trigger.value], r)
    requires AnalysisRequested(db, jobs0, nextId1, pending0, up, pending, trigger, job, now)
    ensures FindingsRecorded(transcripts0, nextId0, events0, schedule0, jobs0, db, r, available, upcoming, now, jitter,
                             Recorded(status, trigger, job), pending0, up, pending)
  {
  }

  /** Phase 4: `enqueue_for_transcript` for the transcript phase 3 found due, if any, without force. */
  method RequestAnalysis(db: Database, queue: QueueService.Queue, trigger: Option<int>, now: int) returns (job: Option<int>)
    requires db.Valid()
    requires trigger.Some? ==> trigger.value >= 1
    modifies db`jobs, db`nextId, queue`lists
    ensures db.Valid()
    ensures trigger.None? ==> job.None? && db.jobs == old(db.jobs) && queue.lists == old(queue.lists)
    ensures job.Some? ==> trigger.Some? && job.value in db.jobs
    ensures AnalysisRequested(db, old(db.jobs), old(db.nextId), old(queue.Pending("analysis")), old(queue.available),
                              queue.Pending("analysis"), trigger, job, now)
    ensures forall name :: name != "analysis" ==> queue.Pending(name) == old(queue.Pending(name))
  {
    job := None;
    if trigger.Some? {
      job := AnalysisJobs.EnqueueForTranscript(db, queue, trigger.value, false, now);
    }
  }

  /** Phases 3 and 4 once the provider answered: persist, then request the analysis. */
  method RecordAndTrigger(db: Database, queue: QueueService.Queue, r: CheckRequest,
                          available: seq<TranscriptService.TranscriptMetadata>,
                          upcoming: seq<TranscriptService.TranscriptMetadata>, now: int, jitter: nat)
    returns (outcome: CheckOutcome)
    requires db.Valid()
    requires jitter <= RetryUtils.JitterBound(RetryUtils.DefaultBase)
    modifies db`transcripts, db`nextId, db`events, db`schedule, db`checks, db`jobs, queue`lists
    ensures db.Valid()
    ensures FindingsRecorded(old(db.transcripts), old(db.nextId), old(db.events), old(db.schedule), old(db.jobs),
                             db, r, available, upcoming, now, jitter, outcome,
                             old(queue.Pending("analysis")), old(queue.available), queue.Pending("analysis"))
    ensures db.checks == old(db.checks)[r.stockId := Idle]
    ensures outcome.analysisFor.None? ==> queue.lists == old(queue.lists)
    ensures outcome.analysisJob.Some? ==> outcome.analysisFor.Some? && outcome.analysisJob.value in db.jobs
    ensures forall name :: name != "analysis" ==> queue.Pending(name) == old(queue.Pending(name))
  {
    ghost var ts0, n0, es0, sc0, js0 := db.transcripts, db.nextId, db.events, db.schedule, db.jobs;
    ghost var pending0, up, eligible := queue.Pending("analysis"), queue.available, Eligible(db, r.stockId);
    var status, trigger := PersistFindings(db, r, available, upcoming, now, jitter);
    ghost var ts1, n1, es1, sc1 := db.transcripts, db.nextId, db.events, db.schedule;
    var job := RequestAnalysis(db, queue, trigger, now);
    assert db.transcripts == ts1 && db.events == es1 && db.schedule == sc1 && Eligible(db, r.stockId) == eligible;
    outcome := Recorded(status, trigger, job);
    FindingsFrom(ts0, n0, es0, sc0, js0, db, r, available, upcoming, now, jitter, status, trigger, job, n1,
                 pending0, up, queue.Pending("analysis"));
  }

  /** The tables `_process_job` writes, as a call finds them. */
  datatype Before = Before(transcripts: map<int, Transcript>, nextId: int, events: seq<TranscriptEvent>,
                           schedule: map<int, ScheduleRow>, checks: map<int, CheckStatus>, jobs: map<int, Job>,
                           analysis: seq<QueueService.Body>, up: bool)

  function BeforeCheck(db: Database, queue: QueueService.Queue): Before
    reads db`transcripts, db`nextId, db`events, db`schedule, db`checks, db`jobs, queue
  {
    Before(db.transcripts, db.nextId, db.events, db.schedule, db.checks, db.jobs, queue.Pending("analysis"), queue.available)
  }

  /**
   * What phases 1 to 4 leave for request `r` in the tables found as `b`: a
   * failed fetch counts an attempt and reschedules with backoff; otherwise
   * the findings for the period are persisted and logged, the period
   * rescheduled by what was found, and an analysis requested for an
   * available transcript of an eligible stock. Either way the stock ends
   * `idle`.
   */
  ghost predicate RequestChecked(b: Before, db: Database, pending: seq<QueueService.Body>, r: CheckRequest, now: int,
                                 fetched: Result<(seq<TranscriptService.TranscriptMetadata>, seq<TranscriptService.TranscriptMetadata>)>,
                                 jitter: nat, outcome: CheckOutcome)
    reads db`transcripts, db`nextId, db`events, db`schedule, db`checks, db`jobs, db`analyses
    reads db`watchlist, db`groups, db`groupStocks
  {
    && jitter <= RetryUtils.JitterBound(RetryUtils.DefaultBase)
    && outcome != Ignored
    && db.checks == b.checks[r.stockId := Idle]
    && (outcome == FetchFailed <==> fetched.Err?)
    && (outcome == FetchFailed ==>
          var attempts := ScheduledAttempts(b.schedule, b.nextId, r) + 1;
          var next := ComputeNextCheck("error", None, attempts, now, jitter);
          && db.schedule == UpdatePeriod(b.schedule, r, ErroredAs(attempts, next, now))
          && db.transcripts == b.transcripts && db.events == b.events && db.jobs == b.jobs
          && db.nextId == b.nextId && pending == b.analysis)
    && (outcome.Recorded? ==>
          FindingsRecorded(b.transcripts, b.nextId, b.events, b.schedule, b.jobs, db, r,
                           ForPeriod(fetched.value.0, r.quarter, r.year), ForPeriod(fetched.value.1, r.quarter, r.year),
                           now, jitter, outcome, b.analysis, b.up, pending))
  }

  /** Phase 1: the stock is marked `checking`. */
  method MarkChecking(db: Database, stockId: int)
    modifies db`checks
    ensures db.checks == old(db.checks)[stockId := Checking]
  {
    db.checks := db.checks[stockId := Checking];
  }

  /** Phases 1 and 2 for a request whose fetch raised: the stock marked `checking`, then _handle_fetch_error. */
  method CheckFetchFailed(db: Database, queue: QueueService.Queue, r: CheckRequest, now: int,
                          fetched: Result<(seq<TranscriptService.TranscriptMetadata>, seq<TranscriptService.TranscriptMetadata>)>,
                          jitter: nat)
    returns (outcome: CheckOutcome)
    requires db.Valid() && fetched.Err?
    requires jitter <= RetryUtils.JitterBound(RetryUtils.DefaultBase)
    modifies db`schedule, db`checks
    ensures db.Valid()
    ensures RequestChecked(old(BeforeCheck(db, queue)), db, queue.Pending("analysis"), r, now, fetched, jitter, outcome)
  {
    ghost var b := BeforeCheck(db, queue);
    MarkChecking(db, r.stockId);
    HandleFetchError(db, r, now, jitter);
    assert db.checks == b.checks[r.stockId := Idle];
    outcome := FetchFailed;
  }

  /** A fetch that answered and whose findings were recorded is a request checked as RequestChecked says. */
  lemma RecordedChecked(transcripts0: map<int, Transcript>, nextId0: int, events0: seq<TranscriptEvent>,
                        schedule0: map<int, ScheduleRow>, checks0: map<int, CheckStatus>, jobs0: map<int, Job>,
                        pending0: seq<QueueService.Body>, up: bool, db: Database, pending: seq<QueueService.Body>,
                        r: CheckRequest, now: int,
                        fetched: Result<(seq<TranscriptService.TranscriptMetadata>, seq<TranscriptService.TranscriptMetadata>)>,
                        jitter: nat, outcome: CheckOutcome)
    requires fetched.Ok? && jitter <= RetryUtils.JitterBound(RetryUtils.DefaultBase)
    requires db.checks == checks0[r.stockId := Idle]
    requires FindingsRecorded(transcripts0, nextId0, events0, schedule0, jobs0, db, r,
                              ForPeriod(fetched.value.0, r.quarter, r.year), ForPeriod(fetched.value.1, r.quarter, r.year),
                              now, jitter, outcome, pending0, up, pending)
    ensures RequestChecked(Before(transcripts0, nextId0, events0, schedule0, checks0, jobs0, pending0, up),
                           db, pending, r, now, fetched, jitter, outcome)
  {
  }

  /** Phases 1 to 4 for a request whose fetch answered: the stock marked `checking`, then the findings recorded. */
  method CheckFetched(db: Database, queue: QueueService.Queue, r: CheckRequest, now: int,
                      fetched: Result<(seq<TranscriptService.TranscriptMetadata>, seq<TranscriptService.TranscriptMetadata>)>,
                      jitter: nat)
    returns (outcome: CheckOutcome)
    requires db.Valid() && fetched.Ok?
    requires jitter <= RetryUtils.JitterBound(RetryUtils.DefaultBase)
    modifies db`transcripts, db`nextId, db`events, db`schedule, db`checks, db`jobs, queue`lists
    ensures db.Valid()
    ensures RequestChecked(old(BeforeCheck(db, queue)), db, queue.Pending("analysis"), r, now, fetched, jitter, outcome)
    ensures outcome.analysisFor.None? ==> queue.lists == old(queue.lists)
    ensures forall name :: name != "analysis" ==> queue.Pending(name) == old(queue.Pending(name))
  {
    ghost var checks0 := db.checks;
    MarkChecking(db, r.stockId);
    ghost var ts, n, es, sc, js, q, up := db.transcripts, db.nextId, db.events, db.schedule, db.jobs, queue.Pending("analysis"), queue.available;
    var available := ForPeriod(fetched.value.0, r.quarter, r.year);
    var upcoming := ForPeriod(fetched.value.1, r.quarter, r.year);
    outcome := RecordAndTrigger(db, queue, r, available, upcoming, now, jitter);
    RecordedChecked(ts, n, es, sc, checks0, js, q, up, db, queue.Pending("analysis"), r, now, fetched, jitter, outcome);
  }

  /** Phases 1 to 4 for a request whose stock has a symbol. */
  method CheckRequested(db: Database, queue: QueueService.Queue, r: CheckRequest, now: int,
                        fetched: Result<(seq<TranscriptService.TranscriptMetadata>, seq<TranscriptService.TranscriptMetadata>)>,
                        jitter: nat)
    returns (outcome: CheckOutcome)
    requires db.Valid()
    requires jitter <= RetryUtils.JitterBound(RetryUtils.DefaultBase)
    modifies db`transcripts, db`nextId, db`events, db`schedule, db`checks, db`jobs, queue`lists
    ensures db.Valid()
    ensures RequestChecked(old(BeforeCheck(db, queue)), db, queue.Pending("analysis"), r, now, fetched, jitter, outcome)
    ensures !outcome.Recorded? || outcome.analysisFor.None? ==> queue.lists == old(queue.lists)
    ensures forall name :: name != "analysis" ==> queue.Pending(name) == old(queue.Pending(name))
  {
    if fetched.Err? {
      outcome := CheckFetchFailed(db, queue, r, now, fetched, jitter);
    } else {
      outcome := CheckFetched(db, queue, r, now, fetched, jitter);
    }
  }

  /**
   * What `_process_job(p)` leaves in the tables it found as `b`: a message
   * without a usable request, or for a stock without a symbol, changes
   * nothing; any other is checked as RequestChecked says.
   */
  ghost predicate CheckProcessed(b: Before, db: Database, pending: seq<QueueService.Body>, p: QueueService.Payload, now: int,
                                 fetched: Result<(seq<TranscriptService.TranscriptMetadata>, seq<TranscriptService.TranscriptMetadata>)>,
                                 jitter: nat, outcome: CheckOutcome)
    reads db`transcripts, db`nextId, db`events, db`schedule, db`checks, db`jobs, db`analyses
    reads db`stocks, db`watchlist, db`groups, db`groupStocks
  {
    var req := RequestOf(p);
    && jitter <= RetryUtils.JitterBound(RetryUtils.DefaultBase)
    && (outcome == Ignored <==> req.None? || SymbolOf(db.stocks, req.value.stockId).None?)
    && (outcome == Ignored ==>
          && db.transcripts == b.transcripts && db.nextId == b.nextId && db.events == b.events
          && db.schedule == b.schedule && db.checks == b.checks && db.jobs == b.jobs && pending == b.analysis)
    && (outcome != Ignored ==> RequestChecked(b, db, pending, req.value, now, fetched, jitter, outcome))
  }

  /**
   * _process_job. `fetched` is what the two provider calls returned for the
   * stock's symbol, in their own order, or the error they raised.
   */
  method ProcessJob(db: Database, queue: QueueService.Queue, p: QueueService.Payload, now: int,
                    fetched: Result<(seq<TranscriptService.TranscriptMetadata>, seq<TranscriptService.TranscriptMetadata>)>,
                    jitter: nat)
    returns (outcome: CheckOutcome)
    requires db.Valid()
    requires jitter <= RetryUtils.JitterBound(RetryUtils.DefaultBase)
    modifies db`transcripts, db`nextId, db`events, db`schedule, db`checks, db`jobs, queue`lists
    ensures db.Valid()
    ensures CheckProcessed(old(BeforeCheck(db, queue)), db, queue.Pending("analysis"), p, now, fetched, jitter, outcome)
    ensures !outcome.Recorded? || outcome.analysisFor.None? ==> queue.lists == old(queue.lists)
    ensures forall name :: name != "analysis" ==> queue.Pending(name) == old(queue.Pending(name))
  {
    var req := RequestOf(p);
    if req.None? {
      return Ignored;
    }
    var symbol := SymbolOf(db.stocks, req.value.stockId);
    if symbol.None? {
      return Ignored;
    }
    outcome := CheckRequested(db, queue, req.value, now, fetched, jitter);
  }

  /**
   * What one pass of the worker loop did: nothing when stopped, nothing when
   * the loop's thread has ended, the server unreachable, no message (or a
   * falsy one), a message `_process_job` could not read as an object, or the
   * check of one message.
   */
  datatype Poll = Stopped | Halted | QueueDown | NoMessage | Rejected | Checked(outcome: CheckOutcome)

  /** The queue the worker reads is not the one an analysis request goes to. */
  lemma CheckQueueIsNotAnalysis()
    ensures CheckQueue != "analysis"
  {
  }

  /**
   * What `_run` does with one dequeued body: a falsy one is skipped, and
   * anything else goes to `_process_job` inside the loop's try, so a truthy
   * value that is not an object is rejected there without a change.
   */
  method CheckMessage(db: Database, queue: QueueService.Queue, body: QueueService.Body, now: int,
                      fetched: Result<(seq<TranscriptService.TranscriptMetadata>, seq<TranscriptService.TranscriptMetadata>)>,
                      jitter: nat)
    returns (r: Poll)
    requires db.Valid()
    requires jitter <= RetryUtils.JitterBound(RetryUtils.DefaultBase)
    modifies db`transcripts, db`nextId, db`events, db`schedule, db`checks, db`jobs, queue`lists
    ensures db.Valid()
    ensures r == NoMessage <==> body.Garbled? || body == QueueService.NotObject(false) || body == QueueService.Json(map[])
    ensures r == Rejected <==> body == QueueService.NotObject(true)
    ensures r == NoMessage || r == Rejected || r.Checked?
    ensures r.Checked? ==> body.Json? && CheckProcessed(old(BeforeCheck(db, queue)), db, queue.Pending("analysis"), body.payload, now, fetched, jitter, r.outcome)
    ensures !r.Checked? ==>
      && db.transcripts == old(db.transcripts) && db.events == old(db.events) && db.schedule == old(db.schedule)
      && db.checks == old(db.checks) && db.jobs == old(db.jobs) && db.nextId == old(db.nextId)
    ensures !r.Checked? || !r.outcome.Recorded? || r.outcome.analysisFor.None? ==>
      queue.Pending("analysis") == old(queue.Pending("analysis"))
    ensures forall name :: name != "analysis" ==> queue.Pending(name) == old(queue.Pending(name))
    ensures queue.Pending(CheckQueue) == old(queue.Pending(CheckQueue))
  {
    CheckQueueIsNotAnalysis();
    match body
    case NotObject(truthy) =>
      r := if truthy then Rejected else NoMessage;
    case Garbled(_) =>
      r := NoMessage;
    case Json(payload) =>
      if payload == map[] {
        r := NoMessage;
      } else {
        var outcome := ProcessJob(db, queue, payload, now, fetched, jitter);
        r := Poll.Checked(outcome);
      }
  }

  /**
   * One BRPOP of "transcript_check" and `CheckMessage` on what it returns;
   * an unreadable message is skipped. `fetched` is what the provider
   * answers for the message's stock.
   */
  method CheckNext(db: Database, queue: QueueService.Queue, now: int,
                   fetched: Result<(seq<TranscriptService.TranscriptMetadata>, seq<TranscriptService.TranscriptMetadata>)>,
                   jitter: nat)
    returns (r: Poll)
    requires db.Valid()
    requires jitter <= RetryUtils.JitterBound(RetryUtils.DefaultBase)
    modifies db`transcripts, db`nextId, db`events, db`schedule, db`checks, db`jobs, queue`lists
    ensures db.Valid()
    ensures r == QueueDown <==> !queue.available
    ensures r !in {Stopped, Halted}
    ensures queue.available ==>
      if old(queue.Pending(CheckQueue)) == [] then r == NoMessage
      else
        var body := old(queue.Pending(CheckQueue))[0];
        && queue.Pending(CheckQueue) == old(queue.Pending(CheckQueue))[1..]
        && (r == NoMessage <==> body.Garbled? || body == QueueService.NotObject(false) || body == QueueService.Json(map[]))
        && (r == Rejected <==> body == QueueService.NotObject(true))
        && (r.Checked? ==> body.Json? && CheckProcessed(old(BeforeCheck(db, queue)), db, queue.Pending("analysis"), body.payload, now, fetched, jitter, r.outcome))
    ensures !r.Checked? ==>
      && db.transcripts == old(db.transcripts) && db.events == old(db.events) && db.schedule == old(db.schedule)
      && db.checks == old(db.checks) && db.jobs == old(db.jobs) && db.nextId == old(db.nextId)
    ensures !queue.available || old(queue.Pending(CheckQueue)) == [] ==> queue.lists == old(queue.lists)
    ensures !r.Checked? || !r.outcome.Recorded? || r.outcome.analysisFor.None? ==>
      queue.Pending("analysis") == old(queue.Pending("analysis"))
    ensures forall name :: name != "analysis" && name != CheckQueue ==> queue.Pending(name) == old(queue.Pending(name))
  {
    CheckQueueIsNotAnalysis();
    var message := QueueService.Take(queue, CheckQueue);
    ghost var pending := queue.Pending(CheckQueue);
    assert queue.Pending("analysis") == old(queue.Pending("analysis"));
    if message.Err? {
      return QueueDown;
    }
    if message.value.None? {
      return NoMessage;
    }
    r := CheckMessage(db, queue, message.value.value, now, fetched, jitter);
    assert queue.Pending(CheckQueue) == pending;
  }

  class TranscriptFetcherWorker {
    const db: Database
    const queue: QueueService.Queue
    var running: bool
    /** The `_run` thread ended on an exception the loop does not catch, while `running` stayed set. */
    var crashed: bool

    constructor (db: Database, queue: QueueService.Queue)
      ensures this.db == db && this.queue == queue && !running && !crashed
    {
      this.db := db;
      this.queue := queue;
      running := false;
      crashed := false;
    }

    /** start: a second call while running starts nothing, even when the thread has ended; otherwise a new thread. */
    method Start()
      modifies this`running, this`crashed
      ensures running
      ensures crashed == (old(running) && old(crashed))
    {
      if running {
        return;
      }
      running := true;
      crashed := false;
    }

    method Stop()
      modifies this`running
      ensures !running
    {
      running := false;
    }

    /**
     * One pass of `_run`: nothing when stopped or when the thread has ended,
     * otherwise `CheckNext`. The dequeue sits outside the loop's try, so an
     * unreachable server ends the thread, and later passes do nothing until
     * a stop and a start.
     */
    method RunOnce(now: int,
                   fetched: Result<(seq<TranscriptService.TranscriptMetadata>, seq<TranscriptService.TranscriptMetadata>)>,
                   jitter: nat)
      returns (r: Poll)
      requires db.Valid()
      requires jitter <= RetryUtils.JitterBound(RetryUtils.DefaultBase)
      modifies this`crashed, db`transcripts, db`nextId, db`events, db`schedule, db`checks, db`jobs, queue`lists
      ensures db.Valid()
      ensures r == Stopped <==> !running
      ensures r == Halted <==> running && old(crashed)
      ensures r == QueueDown <==> running && !old(crashed) && !queue.available
      ensures crashed <==> old(crashed) || r == QueueDown
      ensures running && !old(crashed) && queue.available ==>
        if old(queue.Pending(CheckQueue)) == [] then r == NoMessage
        else
          var body := old(queue.Pending(CheckQueue))[0];
          && queue.Pending(CheckQueue) == old(queue.Pending(CheckQueue))[1..]
          && (r == NoMessage <==> body.Garbled? || body == QueueService.NotObject(false) || body == QueueService.Json(map[]))
          && (r == Rejected <==> body == QueueService.NotObject(true))
          && (r.Checked? ==> body.Json? && CheckProcessed(old(BeforeCheck(db, queue)), db, queue.Pending("analysis"), body.payload, now, fetched, jitter, r.outcome))
      ensures !r.Checked? ==>
        && db.transcripts == old(db.transcripts) && db.events == old(db.events) && db.schedule == old(db.schedule)
        && db.checks == old(db.checks) && db.jobs == old(db.jobs) && db.nextId == old(db.nextId)
      ensures !(running && !old(crashed) && queue.available) ==> queue.lists == old(queue.lists)
      ensures !r.Checked? || !r.outcome.Recorded? || r.outcome.analysisFor.None? ==>
        queue.Pending("analysis") == old(queue.Pending("analysis"))
      ensures forall name :: name != "analysis" && name != CheckQueue ==> queue.Pending(name) == old(queue.Pending(name))
    {
      if !running {
        return Stopped;
      }
      if crashed {
        return Halted;
      }
      r := CheckNext(db, queue, now, fetched, jitter);
      crashed := r == QueueDown;
    }
  }
}
