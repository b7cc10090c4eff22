/**
 * The legacy transcript poller (backend/services/scheduler_service.py), the
 * scheduler the web application starts. For every watchlisted or grouped
 * stock it records the provider's available transcripts and upcoming calls
 * in the transcripts table, and asks the legacy analysis worker to analyse
 * a transcript of the latest quarter that has no analysis yet.
 *
 * The provider's answers for a stock are parameters (`Fetched`); the table
 * is a map from id to row together with its AUTOINCREMENT counter (`Rows`).
 */
module LegacyScheduler {
  import opened Wrappers
  import opened Store
  import Quarters
  import TranscriptService
  import QueueScheduler
  import CallSites

  type Metadata = TranscriptService.TranscriptMetadata

  /** _get_latest_quarter, the poller's own copy of the month ranges, as ("Qn", fiscal year). */
  function LatestQuarter(year: int, month: TranscriptService.Month): (r: (string, int))
    ensures var p := QueueScheduler.LatestQuarter(year, month); r == (Quarters.Name(p.quarter), p.fy)
  {
    var current :=
      if 4 <= month <= 6 then ("Q1", year + 1)
      else if 7 <= month <= 9 then ("Q2", year + 1)
      else if 10 <= month <= 12 then ("Q3", year + 1)
      else ("Q4", year);
    if current.0 == "Q1" then ("Q4", current.1 - 1)
    else if current.0 == "Q2" then ("Q1", current.1)
    else if current.0 == "Q3" then ("Q2", current.1)
    else ("Q3", current.1)
  }

  // ---------------------------------------------------------------------
  // Matching a provider result to a stored row
  // ---------------------------------------------------------------------

  /** The transcripts table and its AUTOINCREMENT counter. */
  datatype Rows = Rows(ts: map<int, Transcript>, nextId: int)

  predicate RowsValid(r: Rows) {
    1 <= r.nextId && forall id :: id in r.ts ==> 1 <= id < r.nextId
  }

  /** No row of `r` is deleted from `s`, and only `upcoming` rows may differ. */
  predicate Kept(r: Rows, s: Rows) {
    forall i :: i in r.ts ==> i in s.ts && (r.ts[i].status != Upcoming ==> s.ts[i] == r.ts[i])
  }

  /** `stock_id = ? AND source_url = ?`: a NULL url equals nothing. */
  predicate SameUrl(t: Transcript, stockId: int, url: Option<string>) {
    t.stockId == stockId && url.Some? && t.sourceUrl == url
  }

  /** `stock_id = ? AND quarter = ? AND year = ? AND status = 'upcoming'`. */
  predicate UpcomingFor(t: Transcript, stockId: int, quarter: string, year: int) {
    t.stockId == stockId && t.quarter == quarter && t.year == year && t.status == Upcoming
  }

  /** The first row, by id, holding the stock's url. */
  function ByUrl(r: Rows, stockId: int, url: Option<string>): (found: Option<int>)
    ensures found.Some? ==> found.value in r.ts && SameUrl(r.ts[found.value], stockId, url)
    ensures found.Some? ==> forall i :: 1 <= i < found.value && i in r.ts ==> !SameUrl(r.ts[i], stockId, url)
    ensures found.None? ==> forall i :: 1 <= i < r.nextId && i in r.ts ==> !SameUrl(r.ts[i], stockId, url)
  {
    var p := i => i in r.ts && SameUrl(r.ts[i], stockId, url);
    var found := FirstMatch(1, r.nextId, p);
    assert forall i :: p(i) == (i in r.ts && SameUrl(r.ts[i], stockId, url));
    found
  }

  /** The first row, by id, that is an upcoming row of the stock for the period. */
  function UpcomingRow(r: Rows, stockId: int, quarter: string, year: int): (found: Option<int>)
    ensures found.Some? ==> found.value in r.ts && UpcomingFor(r.ts[found.value], stockId, quarter, year)
    ensures found.None? ==> forall i :: 1 <= i < r.nextId && i in r.ts ==> !UpcomingFor(r.ts[i], stockId, quarter, year)
  {
    var p := i => i in r.ts && UpcomingFor(r.ts[i], stockId, quarter, year);
    var found := FirstMatch(1, r.nextId, p);
    assert forall i :: p(i) == (i in r.ts && UpcomingFor(r.ts[i], stockId, quarter, year));
    found
  }

  /**
   * The row an available result is matched to: a row with its url wins;
   * only when there is none does an upcoming row of its period match.
   */
  function Existing(r: Rows, stockId: int, t: Metadata): (found: Option<int>)
    ensures found.Some? ==> found.value in r.ts
    ensures found.Some? ==> SameUrl(r.ts[found.value], stockId, t.sourceUrl) || UpcomingFor(r.ts[found.value], stockId, t.quarter, t.year)
    ensures (exists i :: 1 <= i < r.nextId && i in r.ts && SameUrl(r.ts[i], stockId, t.sourceUrl)) ==>
      found.Some? && SameUrl(r.ts[found.value], stockId, t.sourceUrl)
    ensures found.None? ==> forall i :: 1 <= i < r.nextId && i in r.ts ==>
      !SameUrl(r.ts[i], stockId, t.sourceUrl) && !UpcomingFor(r.ts[i], stockId, t.quarter, t.year)
  {
    var byUrl := ByUrl(r, stockId, t.sourceUrl);
    if byUrl.Some? then byUrl else UpcomingRow(r, stockId, t.quarter, t.year)
  }

  // ---------------------------------------------------------------------
  // One available result
  // ---------------------------------------------------------------------

  /** The INSERT of a new available transcript; created_at defaults to now. */
  function NewAvailable(stockId: int, t: Metadata, now: int): Transcript {
    Transcript(stockId, t.quarter, t.year, t.sourceUrl, Available, None, None, None, now, None)
  }

  /** The UPDATE of a matched upcoming row: available, with the new url. */
  function Upgraded(row: Transcript, url: Option<string>, now: int): Transcript {
    row.(status := Available, sourceUrl := url, updatedAt := Some(now))
  }

  /** `SELECT id FROM transcript_analyses WHERE transcript_id = ?` finds a row. */
  predicate Analysed(analyses: map<int, Analysis>, transcriptId: int) {
    exists a :: a in analyses && analyses[a].transcriptId == transcriptId
  }

  /** The auto-analysis gate: the latest quarter, and no analysis for the transcript yet. */
  predicate WantsAnalysis(analyses: map<int, Analysis>, transcriptId: int, row: Transcript, latest: (string, int)) {
    row.quarter == latest.0 && row.year == latest.1 && !Analysed(analyses, transcriptId)
  }

  /** An auto-analysis request: the transcript it was for and what the worker's call produced. */
  datatype Attempt = Attempt(transcriptId: int, outcome: CallSites.StartOutcome)

  /**
   * The request for a transcript of the latest quarter, as the scheduler
   * makes it: stock id, quarter and year passed positionally to a worker
   * method that declares only the stock id. The TypeError is caught and
   * printed, so the attempt changes nothing else.
   */
  function Attempted(stockId: int, transcriptId: int, latest: (string, int), now: int): (a: Attempt)
    ensures a.transcriptId == transcriptId && a.outcome.StartRaised?
  {
    CallSites.AutoAnalysisCallAlwaysRaises(stockId, latest.0, latest.1, now);
    Attempt(transcriptId, CallSites.StartAnalysisJob(CallSites.AutoAnalysisCallAsWritten(stockId, latest.0, latest.1), now))
  }

  /** The row an available result writes: a new one, a matched upcoming one, or none. */
  function Touched(r: Rows, stockId: int, t: Metadata): (id: Option<int>)
    ensures id.Some? ==> id.value == r.nextId || (id.value in r.ts && r.ts[id.value].status == Upcoming)
  {
    var e := Existing(r, stockId, t);
    if e.None? then Some(r.nextId) else if r.ts[e.value].status == Upcoming then Some(e.value) else None
  }

  datatype Recorded = Recorded(rows: Rows, attempt: Option<Attempt>)

  /**
   * One iteration of the available loop: no match inserts an available row,
   * a matched upcoming row becomes available with the new url, and any other
   * match is left as it is. A row inserted or made available is analysed
   * when it belongs to the latest quarter and has no analysis.
   */
  function Record(r: Rows, analyses: map<int, Analysis>, stockId: int, t: Metadata, latest: (string, int), now: int)
    : (s: Recorded)
    ensures RowsValid(r) ==> RowsValid(s.rows)
    ensures r.nextId <= s.rows.nextId <= r.nextId + 1
    ensures Existing(r, stockId, t).None? ==>
      s.rows.nextId == r.nextId + 1 && s.rows.ts == r.ts[r.nextId := NewAvailable(stockId, t, now)]
    ensures var e := Existing(r, stockId, t);
      e.Some? && r.ts[e.value].status == Upcoming ==>
        s.rows.nextId == r.nextId && s.rows.ts == r.ts[e.value := Upgraded(r.ts[e.value], t.sourceUrl, now)]
    ensures Touched(r, stockId, t).None? ==> s == Recorded(r, None)
    ensures RowsValid(r) ==> Kept(r, s.rows)
    ensures var id := Touched(r, stockId, t);
      s.attempt.Some? <==> id.Some? && WantsAnalysis(analyses, id.value, s.rows.ts[id.value], latest)
    ensures s.attempt.Some? ==> s.attempt.value == Attempted(stockId, Touched(r, stockId, t).value, latest, now)
    ensures s.attempt.Some? ==> s.attempt.value.outcome.StartRaised?
  {
    var e := Existing(r, stockId, t);
    if e.None? then
      var id := r.nextId;
      var rows := Rows(r.ts[id := NewAvailable(stockId, t, now)], id + 1);
      Recorded(rows, if WantsAnalysis(analyses, id, rows.ts[id], latest) then Some(Attempted(stockId, id, latest, now)) else None)
    else if r.ts[e.value].status == Upcoming then
      var id := e.value;
      var rows := Rows(r.ts[id := Upgraded(r.ts[id], t.sourceUrl, now)], r.nextId);
      Recorded(rows, if WantsAnalysis(analyses, id, rows.ts[id], latest) then Some(Attempted(stockId, id, latest, now)) else None)
    else
      Recorded(r, None)
  }

  /** A result with a url, recorded twice in a row, changes nothing and asks for nothing the second time. */
  lemma RecordTwice(r: Rows, analyses: map<int, Analysis>, stockId: int, t: Metadata, latest: (string, int), now: int)
    requires RowsValid(r) && t.sourceUrl.Some?
    ensures var s := Record(r, analyses, stockId, t, latest, now);
      Record(s.rows, analyses, stockId, t, latest, now) == Recorded(s.rows, None)
  {
    var s := Record(r, analyses, stockId, t, latest, now);
    var e := Existing(r, stockId, t);
    var id := if e.None? then r.nextId else e.value;
    assert id in s.rows.ts && SameUrl(s.rows.ts[id], stockId, t.sourceUrl) && s.rows.ts[id].status != Upcoming;
    var again := ByUrl(s.rows, stockId, t.sourceUrl);
    assert again.Some?;
    if e.Some? && ByUrl(r, stockId, t.sourceUrl).Some? {
      assert again.value == id by {
        forall i | 1 <= i < id && i in s.rows.ts
          ensures !SameUrl(s.rows.ts[i], stockId, t.sourceUrl)
        {
          assert s.rows.ts[i] == r.ts[i];
        }
      }
    } else {
      assert again.value == id by {
        forall i | 1 <= i < id && i in s.rows.ts
          ensures !SameUrl(s.rows.ts[i], stockId, t.sourceUrl)
        {
          assert i in r.ts && s.rows.ts[i] == r.ts[i];
        }
      }
    }
  }

  datatype Recording = Recording(rows: Rows, attempts: seq<Attempt>)

  /** The available loop over the provider's results, in their order. */
  function RecordAll(r: Rows, analyses: map<int, Analysis>, stockId: int, results: seq<Metadata>,
                     latest: (string, int), now: int): (s: Recording)
    ensures RowsValid(r) ==> RowsValid(s.rows)
    ensures r.nextId <= s.rows.nextId <= r.nextId + |results|
    ensures RowsValid(r) ==> Kept(r, s.rows)
    decreases |results|
  {
    if results == [] then Recording(r, [])
    else
      var prev := RecordAll(r, analyses, stockId, results[..|results| - 1], latest, now);
      var step := Record(prev.rows, analyses, stockId, results[|results| - 1], latest, now);
      Recording(step.rows, prev.attempts + if step.attempt.Some? then [step.attempt.value] else [])
  }

  /** The attempt asks, with the scheduler's three-argument call, for an available row of the stock that passes the gate. */
  predicate GatedAttempt(rows: Rows, a: Attempt, analyses: map<int, Analysis>, stockId: int, latest: (string, int), now: int) {
    && a.transcriptId in rows.ts
    && rows.ts[a.transcriptId].status == Available && rows.ts[a.transcriptId].stockId == stockId
    && WantsAnalysis(analyses, a.transcriptId, rows.ts[a.transcriptId], latest)
    && a == Attempted(stockId, a.transcriptId, latest, now)
  }

  predicate Gated(s: Recording, analyses: map<int, Analysis>, stockId: int, latest: (string, int), now: int) {
    forall k :: 0 <= k < |s.attempts| ==> GatedAttempt(s.rows, s.attempts[k], analyses, stockId, latest, now)
  }

  /**
   * Every auto-analysis the loop asks for is for an available row of the
   * stock in the latest quarter without an analysis, made with the
   * scheduler's three-argument call, which raises.
   */
  lemma {:induction false} AttemptsGated(r: Rows, analyses: map<int, Analysis>, stockId: int, results: seq<Metadata>,
                                          latest: (string, int), now: int)
    requires RowsValid(r)
    ensures Gated(RecordAll(r, analyses, stockId, results, latest, now), analyses, stockId, latest, now)
    decreases |results|
  {
    if results != [] {
      var init := results[..|results| - 1];
      AttemptsGated(r, analyses, stockId, init, latest, now);
      var prev := RecordAll(r, analyses, stockId, init, latest, now);
      var t := results[|results| - 1];
      var step := Record(prev.rows, analyses, stockId, t, latest, now);
      var s := RecordAll(r, analyses, stockId, results, latest, now);
      assert s.rows == step.rows;
      forall k | 0 <= k < |prev.attempts|
        ensures GatedAttempt(s.rows, prev.attempts[k], analyses, stockId, latest, now)
      {
        assert GatedAttempt(prev.rows, prev.attempts[k], analyses, stockId, latest, now);
      }
      if step.attempt.Some? {
        var id := Touched(prev.rows, stockId, t).value;
        assert id in step.rows.ts && step.rows.ts[id].stockId == stockId && step.rows.ts[id].status == Available by {
          var e := Existing(prev.rows, stockId, t);
          if e.Some? {
            assert UpcomingFor(prev.rows.ts[e.value], stockId, t.quarter, t.year) || SameUrl(prev.rows.ts[e.value], stockId, t.sourceUrl);
          }
        }
        assert s.attempts == prev.attempts + [step.attempt.value];
      } else {
        assert s.attempts == prev.attempts;
      }
    }
  }

  // ---------------------------------------------------------------------
  // One upcoming call
  // ---------------------------------------------------------------------

  /** The INSERT of an upcoming call: no url, the call's event date. */
  function NewUpcoming(stockId: int, call: Metadata, now: int): Transcript {
    Transcript(stockId, call.quarter, call.year, None, Upcoming, call.eventDate, None, None, now, None)
  }

  predicate HasUpcoming(r: Rows, stockId: int, quarter: string, year: int) {
    exists i :: i in r.ts && UpcomingFor(r.ts[i], stockId, quarter, year)
  }

  /** One iteration of the upcoming loop: an upcoming row is inserted only when the period has none. */
  function Announce(r: Rows, stockId: int, call: Metadata, now: int): (s: Rows)
    ensures RowsValid(r) ==> RowsValid(s)
    ensures r.nextId <= s.nextId <= r.nextId + 1
    ensures RowsValid(r) && HasUpcoming(r, stockId, call.quarter, call.year) ==> s == r
    ensures RowsValid(r) && !HasUpcoming(r, stockId, call.quarter, call.year) ==>
      s == Rows(r.ts[r.nextId := NewUpcoming(stockId, call, now)], r.nextId + 1)
    ensures RowsValid(r) ==> forall i :: i in r.ts ==> i in s.ts && s.ts[i] == r.ts[i]
    ensures HasUpcoming(s, stockId, call.quarter, call.year)
  {
    var found := UpcomingRow(r, stockId, call.quarter, call.year);
    if found.Some? then r
    else
      var s := Rows(r.ts[r.nextId := NewUpcoming(stockId, call, now)], r.nextId + 1);
      assert UpcomingFor(s.ts[r.nextId], stockId, call.quarter, call.year);
      s
  }

  /** The upcoming loop over the provider's calls, in their order. */
  function AnnounceAll(r: Rows, stockId: int, calls: seq<Metadata>, now: int): (s: Rows)
    ensures RowsValid(r) ==> RowsValid(s)
    ensures r.nextId <= s.nextId <= r.nextId + |calls|
    ensures RowsValid(r) ==> forall i :: i in r.ts ==> i in s.ts && s.ts[i] == r.ts[i]
    decreases |calls|
  {
    if calls == [] then r
    else Announce(AnnounceAll(r, stockId, calls[..|calls| - 1], now), stockId, calls[|calls| - 1], now)
  }

  /** After the loop every announced period has an upcoming row. */
  lemma {:induction false} AnnouncedAll(r: Rows, stockId: int, calls: seq<Metadata>, now: int)
    requires RowsValid(r)
    ensures forall k :: 0 <= k < |calls| ==>
      HasUpcoming(AnnounceAll(r, stockId, calls, now), stockId, calls[k].quarter, calls[k].year)
    decreases |calls|
  {
    if calls != [] {
      var init := calls[..|calls| - 1];
      AnnouncedAll(r, stockId, init, now);
      var prev := AnnounceAll(r, stockId, init, now);
      var s := AnnounceAll(r, stockId, calls, now);
      forall k | 0 <= k < |calls|
        ensures HasUpcoming(s, stockId, calls[k].quarter, calls[k].year)
      {
        if k < |calls| - 1 {
          assert calls[k] == init[k];
          var i :| i in prev.ts && UpcomingFor(prev.ts[i], stockId, calls[k].quarter, calls[k].year);
          assert s.ts[i] == prev.ts[i];
        }
      }
    }
  }

  /** Once every period has an upcoming row, the loop inserts nothing. */
  lemma {:induction false} AnnounceAllSettled(r: Rows, stockId: int, calls: seq<Metadata>, now: int)
    requires RowsValid(r)
    requires forall k :: 0 <= k < |calls| ==> HasUpcoming(r, stockId, calls[k].quarter, calls[k].year)
    ensures AnnounceAll(r, stockId, calls, now) == r
    decreases |calls|
  {
    if calls != [] {
      var init := calls[..|calls| - 1];
      assert forall k :: 0 <= k < |init| ==> init[k] == calls[k];
      AnnounceAllSettled(r, stockId, init, now);
    }
  }

  /** Announcing the same calls twice inserts no second upcoming row. */
  lemma AnnounceAllIdempotent(r: Rows, stockId: int, calls: seq<Metadata>, now: int)
    requires RowsValid(r)
    ensures var s := AnnounceAll(r, stockId, calls, now); AnnounceAll(s, stockId, calls, now) == s
  {
    AnnouncedAll(r, stockId, calls, now);
    AnnounceAllSettled(AnnounceAll(r, stockId, calls, now), stockId, calls, now);
  }

  // ---------------------------------------------------------------------
  // One stock
  // ---------------------------------------------------------------------

  /** What the provider answered for a stock: its available transcripts and its upcoming calls. */
  datatype Fetched = Fetched(available: seq<Metadata>, upcoming: seq<Metadata>)

  /** `stock_symbol or bse_code`. */
  function Symbol(stock: Stock): Option<string> {
    OrText(stock.symbol, stock.bseCode)
  }

  /** _process_stock: a stock without symbol and BSE code is skipped; otherwise both loops. */
  function Processed(r: Rows, analyses: map<int, Analysis>, stockId: int, stock: Stock, fetched: Fetched,
                     latest: (string, int), now: int): (s: Recording)
    ensures !HasText(stock.symbol) && !HasText(stock.bseCode) ==> s == Recording(r, [])
    ensures RowsValid(r) ==> RowsValid(s.rows)
    ensures r.nextId <= s.rows.nextId
    ensures RowsValid(r) ==> Kept(r, s.rows)
  {
    if !HasText(Symbol(stock)) then Recording(r, [])
    else
      var a := RecordAll(r, analyses, stockId, fetched.available, latest, now);
      Recording(AnnounceAll(a.rows, stockId, fetched.upcoming, now), a.attempts)
  }

  /** The table as it stands in the database. */
  function TableOf(ts: map<int, Transcript>, nextId: int): Rows {
    Rows(ts, nextId)
  }

  /** Writes a table of rows back, keeping the schema's invariants. */
  method SetRows(db: Database, r: Rows)
    requires db.Valid() && RowsValid(r) && db.nextId <= r.nextId
    modifies db`transcripts, db`nextId
    ensures db.Valid() && db.transcripts == r.ts && db.nextId == r.nextId
  {
    db.transcripts := r.ts;
    db.nextId := r.nextId;
  }

  /** One iteration of the available loop: the two SELECTs, then the INSERT or the UPDATE, then the gate. */
  method RecordAvailable(db: Database, stockId: int, t: Metadata, latest: (string, int), now: int)
    returns (attempt: Option<Attempt>)
    requires db.Valid()
    modifies db`transcripts, db`nextId
    ensures db.Valid()
    ensures var s := Record(TableOf(old(db.transcripts), old(db.nextId)), db.analyses, stockId, t, latest, now);
      TableOf(db.transcripts, db.nextId) == s.rows && attempt == s.attempt
  {
    var r := TableOf(db.transcripts, db.nextId);
    var existing := Existing(r, stockId, t);
    attempt := None;
    var id;
    if existing.None? {
      id := db.nextId;
      SetRows(db, Rows(db.transcripts[id := NewAvailable(stockId, t, now)], id + 1));
    } else if db.transcripts[existing.value].status == Upcoming {
      id := existing.value;
      SetRows(db, Rows(db.transcripts[id := Upgraded(db.transcripts[id], t.sourceUrl, now)], db.nextId));
    } else {
      return;
    }
    if WantsAnalysis(db.analyses, id, db.transcripts[id], latest) {
      attempt := Some(Attempted(stockId, id, latest, now));
    }
  }

  /** The available loop of _process_stock. */
  method RecordAvailableAll(db: Database, stockId: int, results: seq<Metadata>, latest: (string, int), now: int)
    returns (attempts: seq<Attempt>)
    requires db.Valid()
    modifies db`transcripts, db`nextId
    ensures db.Valid()
    ensures var s := RecordAll(TableOf(old(db.transcripts), old(db.nextId)), db.analyses, stockId, results, latest, now);
      TableOf(db.transcripts, db.nextId) == s.rows && attempts == s.attempts
  {
    ghost var r0 := TableOf(db.transcripts, db.nextId);
    attempts := [];
    var k := 0;
    while k < |results|
      invariant 0 <= k <= |results| && db.Valid()
      invariant var s := RecordAll(r0, db.analyses, stockId, results[..k], latest, now);
        TableOf(db.transcripts, db.nextId) == s.rows && attempts == s.attempts
    {
      assert results[..k + 1][..k] == results[..k];
      var attempt := RecordAvailable(db, stockId, results[k], latest, now);
      if attempt.Some? {
        attempts := attempts + [attempt.value];
      }
      k := k + 1;
    }
    assert results[..k] == results;
  }

  /** One iteration of the upcoming loop: the SELECT, then the INSERT when it found nothing. */
  method AnnounceCall(db: Database, stockId: int, call: Metadata, now: int)
    requires db.Valid()
    modifies db`transcripts, db`nextId
    ensures db.Valid()
    ensures TableOf(db.transcripts, db.nextId) == Announce(TableOf(old(db.transcripts), old(db.nextId)), stockId, call, now)
  {
    var found := UpcomingRow(TableOf(db.transcripts, db.nextId), stockId, call.quarter, call.year);
    if found.None? {
      SetRows(db, Rows(db.transcripts[db.nextId := NewUpcoming(stockId, call, now)], db.nextId + 1));
    }
  }

  /** The upcoming loop of _process_stock. */
  method AnnounceCalls(db: Database, stockId: int, calls: seq<Metadata>, now: int)
    requires db.Valid()
    modifies db`transcripts, db`nextId
    ensures db.Valid()
    ensures TableOf(db.transcripts, db.nextId) == AnnounceAll(TableOf(old(db.transcripts), old(db.nextId)), stockId, calls, now)
  {
    ghost var r0 := TableOf(db.transcripts, db.nextId);
    var k := 0;
    while k < |calls|
      invariant 0 <= k <= |calls| && db.Valid()
      invariant TableOf(db.transcripts, db.nextId) == AnnounceAll(r0, stockId, calls[..k], now)
    {
      assert calls[..k + 1][..k] == calls[..k];
      AnnounceCall(db, stockId, calls[k], now);
      k := k + 1;
    }
    assert calls[..k] == calls;
  }

  /**
   * _process_stock for a stock row, at clock `now` in calendar (year, month);
   * the auto-analysis requests are returned, since their outcome is only
   * logged.
   */
  method ProcessStock(db: Database, stockId: int, stock: Stock, fetched: Fetched,
                      year: int, month: TranscriptService.Month, now: int)
    returns (attempts: seq<Attempt>)
    requires db.Valid()
    modifies db`transcripts, db`nextId
    ensures db.Valid()
    ensures var s := Processed(TableOf(old(db.transcripts), old(db.nextId)), db.analyses, stockId, stock, fetched,
                               LatestQuarter(year, month), now);
      TableOf(db.transcripts, db.nextId) == s.rows && attempts == s.attempts
  {
    var symbol := Symbol(stock);
    if !HasText(symbol) {
      return [];
    }
    var latest := LatestQuarter(year, month);
    attempts := RecordAvailableAll(db, stockId, fetched.available, latest, now);
    AnnounceCalls(db, stockId, fetched.upcoming, now);
  }

  // ---------------------------------------------------------------------
  // The poll
  // ---------------------------------------------------------------------

  /** The ids of `s` without repeats, each where it first occurs: the key order of a dict filled from `s`. */
  function Dedup(s: seq<int>): (d: seq<int>)
    decreases |s|
  {
    if s == [] then []
    else
      var d := Dedup(s[..|s| - 1]);
      if s[|s| - 1] in d then d else d + [s[|s| - 1]]
  }

  predicate Distinct(s: seq<int>) {
    forall a, b :: 0 <= a < b < |s| ==> s[a] != s[b]
  }

  /** The deduplicated list holds every id of the input exactly once. */
  lemma {:induction false} DedupExactly(s: seq<int>)
    ensures forall x :: x in Dedup(s) <==> x in s
    ensures Distinct(Dedup(s))
    decreases |s|
  {
    if s != [] {
      var init := s[..|s| - 1];
      DedupExactly(init);
      assert s == init + [s[|s| - 1]];
    }
  }

  /**
   * The merge of poll_watchlist: the watchlist rows, then the group rows,
   * into a dict keyed by stock id; its values in key order.
   */
  method PollList(watchRows: seq<int>, groupRows: seq<int>) returns (list: seq<int>)
    ensures list == Dedup(watchRows + groupRows)
    ensures forall x :: x in list <==> x in watchRows || x in groupRows
    ensures Distinct(list)
  {
    list := [];
    var i := 0;
    while i < |watchRows|
      invariant 0 <= i <= |watchRows| && list == Dedup(watchRows[..i])
    {
      assert watchRows[..i + 1][..i] == watchRows[..i];
      if watchRows[i] !in list {
        list := list + [watchRows[i]];
      }
      i := i + 1;
    }
    assert watchRows[..i] == watchRows + groupRows[..0];
    var j := 0;
    while j < |groupRows|
      invariant 0 <= j <= |groupRows| && list == Dedup(watchRows + groupRows[..j])
    {
      assert (watchRows + groupRows[..j + 1])[..|watchRows| + j] == watchRows + groupRows[..j];
      if groupRows[j] !in list {
        list := list + [groupRows[j]];
      }
      j := j + 1;
    }
    assert groupRows[..j] == groupRows;
    DedupExactly(watchRows + groupRows);
  }

  /** Whether any group, active or not, holds the stock (`INNER JOIN group_stocks`). */
  predicate InAnyGroup(groupStocks: seq<GroupStock>, stockId: int) {
    exists k :: 0 <= k < |groupStocks| && groupStocks[k].stockId == stockId
  }

  /** What the provider answered for a stock; a stock it was not asked about is an empty answer. */
  function FetchedFor(fetched: map<int, Fetched>, stockId: int): Fetched {
    if stockId in fetched then fetched[stockId] else Fetched([], [])
  }

  /** The stock loop of poll_watchlist, over the merged list. */
  function PolledAll(r: Rows, analyses: map<int, Analysis>, stocks: map<int, Stock>, list: seq<int>,
                     fetched: map<int, Fetched>, latest: (string, int), now: int): (s: Recording)
    requires forall k :: 0 <= k < |list| ==> list[k] in stocks
    ensures RowsValid(r) ==> RowsValid(s.rows)
    ensures r.nextId <= s.rows.nextId
    ensures RowsValid(r) ==> Kept(r, s.rows)
    decreases |list|
  {
    if list == [] then Recording(r, [])
    else
      var init := list[..|list| - 1];
      assert forall k :: 0 <= k < |init| ==> init[k] == list[k];
      var prev := PolledAll(r, analyses, stocks, init, fetched, latest, now);
      var id := list[|list| - 1];
      var step := Processed(prev.rows, analyses, id, stocks[id], FetchedFor(fetched, id), latest, now);
      Recording(step.rows, prev.attempts + step.attempts)
  }

  /**
   * poll_watchlist: `watchRows` and `groupRows` are the two SELECTs (the
   * watchlisted stocks, and the stocks of any group); every stock of either
   * is processed once, in the merged order.
   */
  method PollWatchlist(db: Database, watchRows: seq<int>, groupRows: seq<int>, fetched: map<int, Fetched>,
                       year: int, month: TranscriptService.Month, now: int)
    returns (attempts: seq<Attempt>)
    requires db.Valid()
    requires forall i :: i in watchRows <==> i in db.stocks && i in db.watchlist
    requires forall i :: i in groupRows <==> i in db.stocks && InAnyGroup(db.groupStocks, i)
    modifies db`transcripts, db`nextId
    ensures db.Valid()
    ensures forall i :: i in Dedup(watchRows + groupRows) <==>
      i in db.stocks && (i in db.watchlist || InAnyGroup(db.groupStocks, i))
    ensures Distinct(Dedup(watchRows + groupRows))
    ensures forall k :: 0 <= k < |Dedup(watchRows + groupRows)| ==> Dedup(watchRows + groupRows)[k] in db.stocks
    ensures var s := PolledAll(TableOf(old(db.transcripts), old(db.nextId)), db.analyses, db.stocks,
                               Dedup(watchRows + groupRows), fetched, LatestQuarter(year, month), now);
      TableOf(db.transcripts, db.nextId) == s.rows && attempts == s.attempts
  {
    var list := PollList(watchRows, groupRows);
    assert forall j :: 0 <= j < |list| ==> list[j] in db.stocks by {
      forall j | 0 <= j < |list|
        ensures list[j] in db.stocks
      {
        assert list[j] in list;
      }
    }
    ghost var r0 := TableOf(db.transcripts, db.nextId);
    attempts := [];
    var k := 0;
    while k < |list|
      invariant 0 <= k <= |list| && db.Valid()
      invariant forall j :: 0 <= j < k ==> list[..k][j] in db.stocks
      invariant Recording(TableOf(db.transcripts, db.nextId), attempts)
        == PolledAll(r0, db.analyses, db.stocks, list[..k], fetched, LatestQuarter(year, month), now)
    {
      attempts := PollNext(db, r0, list, k, attempts, fetched, year, month, now);
      k := k + 1;
    }
    assert list[..k] == list;
  }

  /** One pass of the poll loop: `_process_stock` on the next stock of the list. */
  method PollNext(db: Database, ghost r0: Rows, list: seq<int>, k: nat, attempts: seq<Attempt>,
                  fetched: map<int, Fetched>, year: int, month: TranscriptService.Month, now: int)
    returns (after: seq<Attempt>)
    requires k < |list| && db.Valid()
    requires forall j :: 0 <= j < |list| ==> list[j] in db.stocks
    requires Recording(TableOf(db.transcripts, db.nextId), attempts)
      == PolledAll(r0, db.analyses, db.stocks, list[..k], fetched, LatestQuarter(year, month), now)
    modifies db`transcripts, db`nextId
    ensures db.Valid()
    ensures Recording(TableOf(db.transcripts, db.nextId), after)
      == PolledAll(r0, db.analyses, db.stocks, list[..k + 1], fetched, LatestQuarter(year, month), now)
  {
    var id := list[k];
    assert list[..k + 1] == list[..k] + [id];
    PolledSnoc(r0, db.analyses, db.stocks, list[..k], id, fetched, LatestQuarter(year, month), now);
    var more := ProcessStock(db, id, db.stocks[id], FetchedFor(fetched, id), year, month, now);
    after := attempts + more;
  }

  /** Polling one more stock is one more `_process_stock` after the ones before it. */
  lemma PolledSnoc(r: Rows, analyses: map<int, Analysis>, stocks: map<int, Stock>, init: seq<int>, id: int,
                   fetched: map<int, Fetched>, latest: (string, int), now: int)
    requires forall j :: 0 <= j < |init| ==> init[j] in stocks
    requires id in stocks
    ensures forall j :: 0 <= j < |init + [id]| ==> (init + [id])[j] in stocks
    ensures var prev := PolledAll(r, analyses, stocks, init, fetched, latest, now);
      var step := Processed(prev.rows, analyses, id, stocks[id], FetchedFor(fetched, id), latest, now);
      PolledAll(r, analyses, stocks, init + [id], fetched, latest, now) == Recording(step.rows, prev.attempts + step.attempts)
  {
    assert (init + [id])[..|init|] == init;
  }

  /** check_and_schedule_stock: an unknown stock changes nothing; otherwise one _process_stock. */
  method CheckAndScheduleStock(db: Database, stockId: int, fetched: Fetched,
                               year: int, month: TranscriptService.Month, now: int)
    returns (attempts: seq<Attempt>)
    requires db.Valid()
    modifies db`transcripts, db`nextId
    ensures db.Valid()
    ensures stockId !in db.stocks ==>
      db.transcripts == old(db.transcripts) && db.nextId == old(db.nextId) && attempts == []
    ensures stockId in db.stocks ==>
      var s := Processed(TableOf(old(db.transcripts), old(db.nextId)), db.analyses, stockId, db.stocks[stockId],
                         fetched, LatestQuarter(year, month), now);
      TableOf(db.transcripts, db.nextId) == s.rows && attempts == s.attempts
  {
    if stockId !in db.stocks {
      return [];
    }
    attempts := ProcessStock(db, stockId, db.stocks[stockId], fetched, year, month, now);
  }

  // ---------------------------------------------------------------------
  // The service object
  // ---------------------------------------------------------------------

  /** SchedulerService's lifecycle: the `running` flag and the poll threads it has started. */
  class LegacySchedulerService {
    const pollInterval: int
    var running: bool
    var threadsStarted: nat

    constructor (pollIntervalSeconds: int)
      ensures pollInterval == pollIntervalSeconds && !running && threadsStarted == 0
    {
      pollInterval := pollIntervalSeconds;
      running := false;
      threadsStarted := 0;
    }

    /** start: a second call while running starts no second thread. */
    method Start()
      modifies this`running, this`threadsStarted
      ensures running
      ensures old(running) ==> threadsStarted == old(threadsStarted)
      ensures !old(running) ==> threadsStarted == old(threadsStarted) + 1
    {
      if running {
        return;
      }
      running := true;
      threadsStarted := threadsStarted + 1;
    }

    /** stop: clears the flag the poll loop tests. */
    method Stop()
      modifies this`running
      ensures !running
    {
      running := false;
    }
  }
}
