/**
 * The pure helpers of the web application (backend/app.py): the current
 * and previous financial-year quarter, the quarter list of the period
 * picker, the watchlist status of a stock, the parameter parsing of the
 * manual analysis trigger, key masking, and the answers of the routes
 * whose calls into other objects do not bind.
 */
module AppHelpers {
  import opened Wrappers
  import opened Store
  import Quarters
  import Text
  import TranscriptService
  import QueueScheduler
  import LegacyScheduler
  import CallSites

  // ---------------------------------------------------------------------
  // Quarters
  // ---------------------------------------------------------------------

  /** get_current_fy_quarter, the application's copy of the month ranges. */
  function CurrentFyQuarter(year: int, month: TranscriptService.Month): (r: Quarters.FyQuarter)
    ensures r == Quarters.Containing(year, month)
  {
    var r :=
      if 4 <= month <= 6 then Quarters.FyQuarter(Quarters.Q1, year + 1)
      else if 7 <= month <= 9 then Quarters.FyQuarter(Quarters.Q2, year + 1)
      else if 10 <= month <= 12 then Quarters.FyQuarter(Quarters.Q3, year + 1)
      else Quarters.FyQuarter(Quarters.Q4, year);
    Quarters.CoversUnique(r, year, month);
    r
  }

  /**
   * get_previous_fy_quarter: the quarter just before the current one, Q1
   * wrapping to Q4 of the year before. It agrees with both schedulers'
   * `_get_latest_quarter` and with the quarter a concall held this month
   * reports.
   */
  function PreviousFyQuarter(year: int, month: TranscriptService.Month): (r: Quarters.FyQuarter)
    ensures r == Quarters.Previous(CurrentFyQuarter(year, month))
    ensures r == QueueScheduler.LatestQuarter(year, month)
    ensures LegacyScheduler.LatestQuarter(year, month) == (Quarters.Name(r.quarter), r.fy)
    ensures forall at :: r == TranscriptService.CalculateFyQuarter(TranscriptService.Moment(at, year, month))
  {
    var c := CurrentFyQuarter(year, month);
    var r := match c.quarter
      case Q1 => Quarters.FyQuarter(Quarters.Q4, c.fy - 1)
      case Q2 => Quarters.FyQuarter(Quarters.Q1, c.fy)
      case Q3 => Quarters.FyQuarter(Quarters.Q2, c.fy)
      case Q4 => Quarters.FyQuarter(Quarters.Q3, c.fy);
    Quarters.OrdinalInjective(r, Quarters.Previous(c));
    r
  }

  /** One entry of the period picker. */
  datatype QuarterOption = QuarterOption(quarter: Quarters.Quarter, year: int, caption: string)

  /** `str(fy)[-2:]`. */
  function LastTwo(s: string): (r: string)
    ensures |r| == if |s| < 2 then |s| else 2
    ensures r <= s || (|s| >= 2 && r == s[|s| - 2..])
  {
    if |s| < 2 then s else s[|s| - 2..]
  }

  /** The label "Qn FYyy (Mon-Mon)" of a quarter. */
  function Label(p: Quarters.FyQuarter): string {
    Quarters.Name(p.quarter) + " FY" + LastTwo(Text.IntToString(p.fy)) + " (" + Quarters.MonthRange(p.quarter) + ")"
  }

  function OptionFor(p: Quarters.FyQuarter): QuarterOption {
    QuarterOption(p.quarter, p.fy, Label(p))
  }

  /** The quarter `k` steps before `p`. */
  function Back(p: Quarters.FyQuarter, k: int): Quarters.FyQuarter {
    Quarters.OfOrdinal(Quarters.Ordinal(p) - k)
  }

  /** `quarter_order`, the order the loop steps through. */
  const QuarterOrder: seq<Quarters.Quarter> := [Quarters.Q4, Quarters.Q3, Quarters.Q2, Quarters.Q1]

  /** `quarter_order.index(q)`. */
  function OrderIndex(q: Quarters.Quarter): (i: nat)
    ensures i < 4 && QuarterOrder[i] == q
  {
    match q
    case Q4 => 0
    case Q3 => 1
    case Q2 => 2
    case Q1 => 3
  }

  /**
   * get_available_quarters: `count` entries (none for count <= 0), starting
   * at the previous quarter and stepping one quarter back each time.
   */
  method AvailableQuarters(count: int, year: int, month: TranscriptService.Month) returns (options: seq<QuarterOption>)
    ensures |options| == if count > 0 then count else 0
    ensures forall k :: 0 <= k < |options| ==> options[k] == OptionFor(Back(PreviousFyQuarter(year, month), k))
  {
    var start := PreviousFyQuarter(year, month);
    var q := start.quarter;
    var fy := start.fy;
    options := [];
    var n := if count > 0 then count else 0;
    var i := 0;
    ghost var listed: seq<Quarters.FyQuarter> := [];
    while i < n
      invariant 0 <= i <= n && |options| == i && |listed| == i
      invariant Quarters.Ordinal(Quarters.FyQuarter(q, fy)) == Quarters.Ordinal(start) - i
      invariant forall k :: 0 <= k < i ==> Quarters.Ordinal(listed[k]) == Quarters.Ordinal(start) - k
      invariant forall k :: 0 <= k < i ==> options[k] == OptionFor(listed[k])
    {
      var here := Quarters.FyQuarter(q, fy);
      options := options + [QuarterOption(q, fy, Label(here))];
      listed := listed + [here];
      var idx := OrderIndex(q);
      if idx == 3 {
        q := Quarters.Q4;
        fy := fy - 1;
      } else {
        q := QuarterOrder[idx + 1];
      }
      OrderStepsBack(here, Quarters.FyQuarter(q, fy));
      i := i + 1;
    }
    forall k | 0 <= k < n
      ensures options[k] == OptionFor(Back(start, k))
    {
      BackAt(start, k, listed[k]);
    }
  }

  /** One step of `quarter_order` reaches the quarter just before. */
  lemma OrderStepsBack(here: Quarters.FyQuarter, next: Quarters.FyQuarter)
    requires next == if OrderIndex(here.quarter) == 3 then Quarters.FyQuarter(Quarters.Q4, here.fy - 1)
                     else Quarters.FyQuarter(QuarterOrder[OrderIndex(here.quarter) + 1], here.fy)
    ensures Quarters.Ordinal(next) == Quarters.Ordinal(here) - 1
  {
  }

  /** A quarter `k` places before `start` in the numbering is `Back(start, k)`. */
  lemma BackAt(start: Quarters.FyQuarter, k: int, p: Quarters.FyQuarter)
    requires Quarters.Ordinal(p) == Quarters.Ordinal(start) - k
    ensures p == Back(start, k)
  {
    Quarters.OrdinalInjective(p, Back(start, k));
  }

  /** Each entry of the picker is the quarter just before the entry above it. */
  lemma {:induction false} PickerStepsBack(start: Quarters.FyQuarter, k: int)
    ensures Back(start, k + 1) == Quarters.Previous(Back(start, k))
  {
    Quarters.OrdinalInjective(Back(start, k + 1), Quarters.Previous(Back(start, k)));
  }

  // ---------------------------------------------------------------------
  // Watchlist status
  // ---------------------------------------------------------------------

  /** The `status` a watchlist entry reports. */
  datatype WatchStatus = NoTranscript | Analyzing | Fetching | UpcomingCall | AnalysisFailed | Analyzed | TranscriptReady

  /** The period the watchlist shows: the one asked for when both parts are given, else the previous quarter. */
  function WatchlistPeriod(quarter: Option<string>, year: Option<int>, clockYear: int, clockMonth: TranscriptService.Month)
    : (r: (string, int))
    ensures HasText(quarter) && year.Some? && year.value != 0 ==> r == (quarter.value, year.value)
    ensures !(HasText(quarter) && year.Some? && year.value != 0) ==>
      var p := Quarters.Previous(Quarters.Containing(clockYear, clockMonth)); r == (Quarters.Name(p.quarter), p.fy)
  {
    if !HasText(quarter) || year.None? || year.value == 0 then
      var p := PreviousFyQuarter(clockYear, clockMonth);
      (Quarters.Name(p.quarter), p.fy)
    else (quarter.value, year.value)
  }

  /**
   * The status of one watchlist entry, from its transcript for the period
   * (if any), whether that transcript has an analysis, and the stock's
   * transcript check. Precedence: analysis in progress, then a running
   * check, then upcoming, then available; a transcript in any other status
   * reports no transcript.
   */
  function DeriveStatus(transcript: Option<Transcript>, analysed: bool, check: Option<CheckStatus>): (s: WatchStatus)
    ensures s == Analyzing <==> transcript.Some? && transcript.value.analysisStatus == Some(InProgress)
    ensures s == Fetching <==>
      check == Some(Checking) && !(transcript.Some? && transcript.value.analysisStatus == Some(InProgress))
    ensures s == UpcomingCall <==>
      transcript.Some? && transcript.value.status == Upcoming
      && transcript.value.analysisStatus != Some(InProgress) && check != Some(Checking)
    ensures s == AnalysisFailed <==>
      transcript.Some? && transcript.value.status == Available
      && transcript.value.analysisStatus == Some(Error) && !analysed && check != Some(Checking)
    ensures s == Analyzed <==>
      transcript.Some? && transcript.value.status == Available && analysed
      && transcript.value.analysisStatus != Some(InProgress) && check != Some(Checking)
    ensures s == TranscriptReady <==>
      transcript.Some? && transcript.value.status == Available && !analysed
      && transcript.value.analysisStatus !in {Some(InProgress), Some(Error)} && check != Some(Checking)
    ensures s == NoTranscript <==>
      check != Some(Checking)
      && (transcript.None? || (transcript.value.status.OtherTranscriptStatus? && transcript.value.analysisStatus != Some(InProgress)))
  {
    if transcript.Some? then
      var t := transcript.value;
      if t.analysisStatus == Some(InProgress) then Analyzing
      else if check == Some(Checking) then Fetching
      else if t.status == Upcoming then UpcomingCall
      else if t.status == Available then
        if t.analysisStatus == Some(Error) && !analysed then AnalysisFailed
        else if analysed then Analyzed
        else TranscriptReady
      else NoTranscript
    else if check == Some(Checking) then Fetching
    else NoTranscript
  }

  // ---------------------------------------------------------------------
  // The manual analysis trigger
  // ---------------------------------------------------------------------

  /** The `force` value: a JSON boolean, absent/null, or anything else as `str()` prints it. */
  datatype ForceParam = ForceBool(b: bool) | ForceAbsent | ForceText(text: string)

  /** The spellings that mean true. */
  const TrueWords: set<string> := {"1", "true", "yes", "y", "on"}

  /** The `force` parsing: a boolean is kept, absence is false, anything else is true iff it names a true word. */
  function ParseForce(force: ForceParam): (r: bool)
    ensures force.ForceBool? ==> r == force.b
    ensures force.ForceAbsent? ==> !r
    ensures force.ForceText? ==> (r <==> Text.Lower(Text.Strip(force.text)) in TrueWords)
  {
    match force
    case ForceBool(b) => b
    case ForceAbsent => false
    case ForceText(text) => Text.Lower(Text.Strip(text)) in TrueWords
  }

  /** The `year` parameter: absent, or given, with what `int()` makes of it (None when it raises). */
  datatype YearParam = YearAbsent | YearGiven(asInt: Option<int>)

  /** What the trigger analyses: the latest transcript, or a named period. */
  datatype Target = LatestTarget | PeriodTarget(quarter: string, year: int)

  const ValidQuarters: set<string> := {"Q1", "Q2", "Q3", "Q4"}

  /**
   * The validation of trigger_analysis: an unreadable year, a quarter
   * without a (non-zero) year or the other way round, and a quarter other
   * than Q1..Q4 once upper-cased are each a 400 with their own message.
   */
  function ValidateTrigger(quarter: Option<string>, year: YearParam): (r: Result<Target>)
    ensures year.YearGiven? && year.asInt.None? ==> r == Err("year must be an integer")
    ensures r == Ok(LatestTarget) <==> !HasText(quarter) && (year.YearAbsent? || year == YearGiven(Some(0)))
    ensures r.Ok? && r.value.PeriodTarget? <==>
      HasText(quarter) && year.YearGiven? && year.asInt.Some? && year.asInt.value != 0
      && Text.Upper(quarter.value) in ValidQuarters
    ensures r.Ok? && r.value.PeriodTarget? ==>
      r.value == PeriodTarget(Text.Upper(quarter.value), year.asInt.value)
  {
    if year.YearGiven? && year.asInt.None? then Err("year must be an integer")
    else
      var hasYear := year.YearGiven? && year.asInt.value != 0;
      var hasQuarter := HasText(quarter);
      if (hasQuarter && !hasYear) || (hasYear && !hasQuarter) then Err("Both quarter and year are required together")
      else if hasQuarter then
        var q := Text.Upper(quarter.value);
        if q !in ValidQuarters then Err("quarter must be one of Q1, Q2, Q3, Q4")
        else Ok(PeriodTarget(q, year.asInt.value))
      else Ok(LatestTarget)
  }

  /**
   * The status code trigger_analysis answers: 400 for invalid parameters,
   * 404 for an unknown stock or a missing transcript of the named period,
   * 422 for one that is not available or has no url, then 202 or 500 as the
   * worker call starts a job or raises.
   */
  function TriggerCode(target: Result<Target>, stockExists: bool, transcript: Option<Transcript>,
                       call: CallSites.StartOutcome): (code: int)
    ensures code == 202 <==>
      target.Ok? && stockExists && call.Started?
      && (target.value.PeriodTarget? ==>
            transcript.Some? && transcript.value.status == Available && HasText(transcript.value.sourceUrl))
    ensures target.Err? ==> code == 400
  {
    if target.Err? then 400
    else if !stockExists then 404
    else if target.value.PeriodTarget? && transcript.None? then 404
    else if target.value.PeriodTarget? && transcript.value.status != Available then 422
    else if target.value.PeriodTarget? && !HasText(transcript.value.sourceUrl) then 422
    else if call.Started? then 202
    else 500
  }

  /** `quarter=` and `year=` as the call prints them. */
  function TargetText(target: Result<Target>): (string, string) {
    if target.Ok? && target.value.PeriodTarget? then (target.value.quarter, Text.IntToString(target.value.year))
    else ("None", "None")
  }

  /**
   * trigger_analysis as written: the worker is called with quarter, year
   * and force keywords. It answers what the corrected route answers, except
   * that a request the corrected route would start ends in 500.
   */
  function TriggerAnalysisAsWritten(stockId: int, quarter: Option<string>, year: YearParam, force: ForceParam,
                                    stockExists: bool, transcript: Option<Transcript>, now: int): (code: int)
    ensures var fixed := TriggerAnalysis(stockId, quarter, year, stockExists, transcript, now);
      code == if fixed == 202 then 500 else fixed
  {
    var target := ValidateTrigger(quarter, year);
    var text := TargetText(target);
    var call := CallSites.TriggerCallAsWritten(stockId, text.0, text.1, if ParseForce(force) then "True" else "False");
    CallSites.StartCallStarts(stockId, now);
    TriggerCode(target, stockExists, transcript, CallSites.StartAnalysisJob(call, now))
  }

  /** As written, the trigger never answers 202: every request that passes the checks ends in 500. */
  lemma TriggerAnalysisNeverStarts(stockId: int, quarter: Option<string>, year: YearParam, force: ForceParam,
                                   stockExists: bool, transcript: Option<Transcript>, now: int)
    ensures TriggerAnalysisAsWritten(stockId, quarter, year, force, stockExists, transcript, now) != 202
  {
    var text := TargetText(ValidateTrigger(quarter, year));
    CallSites.TriggerCallAlwaysRaises(stockId, text.0, text.1, if ParseForce(force) then "True" else "False", now);
  }

  /** trigger_analysis with a call the worker accepts: 202 exactly when every check passes. */
  function TriggerAnalysis(stockId: int, quarter: Option<string>, year: YearParam, stockExists: bool,
                           transcript: Option<Transcript>, now: int): (code: int)
    ensures code == 202 <==>
      var target := ValidateTrigger(quarter, year);
      target.Ok? && stockExists
      && (target.value.PeriodTarget? ==>
            transcript.Some? && transcript.value.status == Available && HasText(transcript.value.sourceUrl))
  {
    CallSites.StartCallStarts(stockId, now);
    TriggerCode(ValidateTrigger(quarter, year), stockExists, transcript,
                CallSites.StartAnalysisJob(CallSites.StartCall(stockId), now))
  }

  // ---------------------------------------------------------------------
  // Key masking
  // ---------------------------------------------------------------------

  /** The masked key check_api_key returns: first and last four characters of a long key, else "****". */
  function MaskKey(key: string): (m: string)
    ensures |key| > 8 ==> |m| == 11 && m[..4] == key[..4] && m[4..7] == "..." && m[7..] == key[|key| - 4..]
    ensures |key| <= 8 ==> m == "****"
  {
    if |key| > 8 then key[..4] + "..." + key[|key| - 4..] else "****"
  }

  /** A masked long key hides every character but the first and last four. */
  lemma {:induction false} MaskHidesMiddle(key: string)
    requires |key| > 8
    ensures |MaskKey(key)| < |key| + 3 && MaskKey(key)[..4] == key[..4]
    ensures forall c :: c in MaskKey(key) ==> c in key[..4] || c == '.' || c in key[|key| - 4..]
  {
    var m := MaskKey(key);
    forall c | c in m
      ensures c in key[..4] || c == '.' || c in key[|key| - 4..]
    {
      var i :| 0 <= i < |m| && m[i] == c;
      if i < 4 {
        assert m[..4][i] == c;
      } else if i >= 7 {
        assert m[7..][i - 7] == c;
      }
    }
  }

  // ---------------------------------------------------------------------
  // The poll routes
  // ---------------------------------------------------------------------

  /** The attributes SchedulerService defines (backend/services/scheduler_service.py:44-271). */
  const SchedulerAttributes: set<string> :=
    {"poll_interval", "transcript_service", "analysis_worker", "group_research_service", "running", "thread",
     "get_db_connection", "_process_stock", "poll_watchlist", "check_and_schedule_stock",
     "trigger_check_for_stock", "_run_scheduler", "start", "stop"}

  /**
   * The answer of the two poll routes when the scheduler offers `attributes`:
   * a missing method raises AttributeError, which the route turns into 500.
   */
  function PollTriggerCode(attributes: set<string>, started: bool): (code: int)
    ensures "trigger_poll" !in attributes ==> code == 500
    ensures "trigger_poll" in attributes ==> (code == 202 <==> started) && code in {200, 202}
  {
    if "trigger_poll" !in attributes then 500 else if started then 202 else 200
  }

  function PollStatusCode(attributes: set<string>): (code: int)
    ensures code == 200 <==> "get_poll_status" in attributes
  {
    if "get_poll_status" !in attributes then 500 else 200
  }

  /** As written, both poll routes always answer 500. */
  lemma PollRoutesAlwaysFail(started: bool)
    ensures PollTriggerCode(SchedulerAttributes, started) == 500
    ensures PollStatusCode(SchedulerAttributes) == 500
  {
  }

  /** A scheduler offering both methods answers 202 exactly when a poll was started, and 200 for the status. */
  lemma PollRoutesWithMethods(started: bool)
    ensures PollTriggerCode(SchedulerAttributes + {"trigger_poll", "get_poll_status"}, started) == if started then 202 else 200
    ensures PollStatusCode(SchedulerAttributes + {"trigger_poll", "get_poll_status"}) == 200
  {
  }
}
