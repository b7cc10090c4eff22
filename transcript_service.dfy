/**
 * The parts of backend/services/transcript_service.py that decide things
 * without the network: which earnings quarter a concall covers, how a PDF
 * url is made safe, and how the provider's concall lists are filtered and
 * ordered. The HTTP requests, the ISIN lookup and the PDF extraction are
 * outside the model: the ISIN found and the decoded response are
 * parameters, and a date string comes with what Python's date parsers make
 * of it.
 */
module TranscriptService {
  import opened Wrappers
  import Quarters
  import Text
  import Store

  type Month = m: int | 1 <= m <= 12 witness 1

  /** A parsed `datetime`: its reading on the model clock and its calendar year and month. */
  datatype Moment = Moment(at: int, year: int, month: Month)

  /**
   * A date string from the provider with what the parsers make of it:
   * `iso` is `datetime.fromisoformat` after 'Z' became '+00:00', and
   * `fallback` the first of the two `strptime` formats that accepts it.
   */
  datatype TimeText = TimeText(text: string, iso: Option<Moment>, fallback: Option<Moment>)

  /** One element of the provider's `data` list, with the fields the service reads. */
  datatype ApiItem = ApiItem(
    transcript: Option<string>,
    concallEventTime: Option<TimeText>,
    eventTime: Option<TimeText>,
    eventDate: Option<TimeText>,
    status: Option<string>,
    companyName: string,
    companyIsin: string)

  datatype TranscriptMetadata = TranscriptMetadata(
    stockSymbol: string,
    quarter: string,
    year: int,
    sourceUrl: Option<string>,
    title: string,
    isin: string,
    eventDate: Option<Store.EventDate>)

  /** _parse_event_time: None for an empty string, else the ISO reading, else the fallback formats. */
  function ParseEventTime(t: Option<TimeText>): (r: Option<Moment>)
    ensures t.None? || t.value.text == "" ==> r.None?
    ensures t.Some? && t.value.text != "" && t.value.iso.Some? ==> r == t.value.iso
  {
    if t.None? || t.value.text == "" then None
    else if t.value.iso.Some? then t.value.iso
    else t.value.fallback
  }

  /**
   * _calculate_fy_quarter on a parsed time: a concall discusses the quarter
   * that ended before the one it is held in.
   */
  function CalculateFyQuarter(m: Moment): (r: Quarters.FyQuarter)
    ensures r == Quarters.Previous(Quarters.Containing(m.year, m.month))
  {
    var month := m.month;
    var year := m.year;
    CalculatedIsPrevious(year, month);
    if 4 <= month <= 6 then Quarters.FyQuarter(Quarters.Q4, year)
    else if 7 <= month <= 9 then Quarters.FyQuarter(Quarters.Q1, year + 1)
    else if 10 <= month <= 12 then Quarters.FyQuarter(Quarters.Q2, year + 1)
    else Quarters.FyQuarter(Quarters.Q3, year)
  }

  /** The month ranges of `_calculate_fy_quarter` agree with the arithmetic reference. */
  lemma CalculatedIsPrevious(year: int, month: Month)
    ensures Quarters.Previous(Quarters.Containing(year, month)) ==
      if 4 <= month <= 6 then Quarters.FyQuarter(Quarters.Q4, year)
      else if 7 <= month <= 9 then Quarters.FyQuarter(Quarters.Q1, year + 1)
      else if 10 <= month <= 12 then Quarters.FyQuarter(Quarters.Q2, year + 1)
      else Quarters.FyQuarter(Quarters.Q3, year)
  {
    var expected :=
      if 4 <= month <= 6 then Quarters.FyQuarter(Quarters.Q4, year)
      else if 7 <= month <= 9 then Quarters.FyQuarter(Quarters.Q1, year + 1)
      else if 10 <= month <= 12 then Quarters.FyQuarter(Quarters.Q2, year + 1)
      else Quarters.FyQuarter(Quarters.Q3, year);
    var c := Quarters.Containing(year, month);
    assert Quarters.Ordinal(Quarters.Previous(c)) == Quarters.Ordinal(c) - 1;
    assert Quarters.Covers(Quarters.Following(expected), year, month);
    Quarters.CoversUnique(Quarters.Following(expected), year, month);
    Quarters.PreviousFollowing(expected);
  }

  /** _calculate_fy_quarter on a string: an unparseable time raises ValueError. */
  function CalculateFyQuarterOf(t: Option<TimeText>): (r: Result<Quarters.FyQuarter>)
    ensures r.Ok? <==> ParseEventTime(t).Some?
    ensures r.Ok? ==> r.value == CalculateFyQuarter(ParseEventTime(t).value)
  {
    var parsed := ParseEventTime(t);
    if parsed.None? then Err("Invalid concall_event_time: " + (if t.Some? then t.value.text else "None"))
    else Ok(CalculateFyQuarter(parsed.value))
  }

  /** `concall_event_time or event_time or event_date`: the first non-empty one. */
  function EventTimeOf(item: ApiItem): (r: Option<TimeText>)
    ensures r.Some? ==> r.value.text != ""
    ensures r.None? ==>
      (item.concallEventTime.None? || item.concallEventTime.value.text == "") &&
      (item.eventTime.None? || item.eventTime.value.text == "") &&
      (item.eventDate.None? || item.eventDate.value.text == "")
  {
    if item.concallEventTime.Some? && item.concallEventTime.value.text != "" then item.concallEventTime
    else if item.eventTime.Some? && item.eventTime.value.text != "" then item.eventTime
    else if item.eventDate.Some? && item.eventDate.value.text != "" then item.eventDate
    else None
  }

  /** What a stored event date records: the text, and the ISO reading of it. */
  function StoredDate(t: TimeText): Store.EventDate {
    Store.EventDate(t.text, if t.iso.Some? then Some(t.iso.value.at) else None)
  }

  function Title(p: Quarters.FyQuarter): string {
    Quarters.Name(p.quarter) + " FY" + Text.IntToString(p.fy) + " Earnings Call"
  }

  /** What the loop of `fetch_available_transcripts` does with one more item: skip it, or add its entry. */
  function CollectStep(before: seq<(Moment, TranscriptMetadata)>, symbol: string, isin: string, item: ApiItem)
    : seq<(Moment, TranscriptMetadata)>
  {
    var parsed := ParseEventTime(EventTimeOf(item));
    if item.transcript.None? || item.transcript.value == "" || parsed.None? then before
    else
      var p := CalculateFyQuarter(parsed.value);
      before + [(parsed.value, TranscriptMetadata(symbol, Quarters.Name(p.quarter), p.fy, item.transcript, Title(p), isin, None))]
  }

  /** The entries the loop of `fetch_available_transcripts` collects from the items. */
  function Collected(symbol: string, isin: string, items: seq<ApiItem>): (r: seq<(Moment, TranscriptMetadata)>)
    ensures |r| <= |items|
    ensures forall k :: 0 <= k < |r| ==>
      r[k].1.sourceUrl.Some? && r[k].1.sourceUrl.value != "" &&
      (r[k].1.quarter, r[k].1.year) == (Quarters.Name(CalculateFyQuarter(r[k].0).quarter), CalculateFyQuarter(r[k].0).fy)
  {
    if items == [] then []
    else CollectStep(Collected(symbol, isin, items[..|items| - 1]), symbol, isin, items[|items| - 1])
  }

  lemma CollectedPrefix(symbol: string, isin: string, items: seq<ApiItem>, i: nat)
    requires i < |items|
    ensures Collected(symbol, isin, items[..i + 1]) == CollectStep(Collected(symbol, isin, items[..i]), symbol, isin, items[i])
  {
    assert items[..i + 1][..i] == items[..i];
  }

  /** The metadata half of each (time, metadata) entry. */
  function Metadata(entries: seq<(Moment, TranscriptMetadata)>): (r: seq<TranscriptMetadata>)
    ensures |r| == |entries| && forall k :: 0 <= k < |r| ==> r[k] == entries[k].1
  {
    seq(|entries|, k requires 0 <= k < |entries| => entries[k].1)
  }

  /** Each entry is at least as new as the one after it. */
  predicate NewestFirst(s: seq<(Moment, TranscriptMetadata)>) {
    forall i :: 0 <= i < |s| - 1 ==> s[i].0.at >= s[i + 1].0.at
  }

  /** Places `x` after every entry at least as new, so equal times keep their order. */
  function InsertByTime(x: (Moment, TranscriptMetadata), s: seq<(Moment, TranscriptMetadata)>): (r: seq<(Moment, TranscriptMetadata)>)
    ensures |r| == |s| + 1
    ensures r[0] == if s != [] && s[0].0.at >= x.0.at then s[0] else x
    ensures multiset(r) == multiset(s) + multiset{x}
    decreases |s|
  {
    if s == [] then [x]
    else if s[0].0.at >= x.0.at then
      assert s == [s[0]] + s[1..];
      [s[0]] + InsertByTime(x, s[1..])
    else [x] + s
  }

  /** Inserting into a newest-first list keeps it newest first. */
  lemma {:induction false} InsertByTimeSorted(x: (Moment, TranscriptMetadata), s: seq<(Moment, TranscriptMetadata)>)
    requires NewestFirst(s)
    ensures NewestFirst(InsertByTime(x, s))
    decreases |s|
  {
    if s != [] && s[0].0.at >= x.0.at {
      InsertByTimeSorted(x, s[1..]);
      var r := InsertByTime(x, s);
      assert r == [s[0]] + InsertByTime(x, s[1..]);
      forall i | 0 <= i < |r| - 1
        ensures r[i].0.at >= r[i + 1].0.at
      {
        if i > 0 {
          assert r[i] == InsertByTime(x, s[1..])[i - 1];
          assert r[i + 1] == InsertByTime(x, s[1..])[i];
        }
      }
    }
  }

  /** `results.sort(key=time, reverse=True)`: Python's stable sort, newest first. */
  function SortNewestFirst(s: seq<(Moment, TranscriptMetadata)>): (r: seq<(Moment, TranscriptMetadata)>)
    ensures NewestFirst(r)
    ensures multiset(r) == multiset(s)
  {
    if s == [] then []
    else
      assert s == s[..|s| - 1] + [s[|s| - 1]];
      InsertByTimeSorted(s[|s| - 1], SortNewestFirst(s[..|s| - 1]));
      InsertByTime(s[|s| - 1], SortNewestFirst(s[..|s| - 1]))
  }

  /**
   * fetch_available_transcripts. `isin` is what the lookup by symbol or BSE
   * code found; `response` the decoded `data` list of the request, or the
   * error it raised, which the method swallows into an empty result.
   */
  method FetchAvailableTranscripts(symbol: string, isin: Option<string>, response: Result<seq<ApiItem>>)
    returns (result: seq<TranscriptMetadata>)
    ensures isin.None? || response.Err? ==> result == []
    ensures isin.Some? && response.Ok? ==> result == Metadata(SortNewestFirst(Collected(symbol, isin.value, response.value)))
  {
    if isin.None? || response.Err? {
      return [];
    }
    var items := response.value;
    var results: seq<(Moment, TranscriptMetadata)> := [];
    var i := 0;
    while i < |items|
      invariant 0 <= i <= |items|
      invariant results == Collected(symbol, isin.value, items[..i])
    {
      CollectedPrefix(symbol, isin.value, items, i);
      var item := items[i];
      if item.transcript.None? || item.transcript.value == "" {
        i := i + 1;
        continue;
      }
      var parsed := ParseEventTime(EventTimeOf(item));
      if parsed.None? {
        i := i + 1;
        continue;
      }
      var p := CalculateFyQuarter(parsed.value);
      results := results + [(parsed.value, TranscriptMetadata(symbol, Quarters.Name(p.quarter), p.fy, item.transcript, Title(p), isin.value, None))];
      i := i + 1;
    }
    assert items[..i] == items;
    result := Metadata(SortNewestFirst(results));
  }

  /** An entry of a permutation of the collected list has a url. */
  lemma CollectedHasUrl(c: seq<(Moment, TranscriptMetadata)>, e: (Moment, TranscriptMetadata))
    requires e in multiset(c)
    requires forall k :: 0 <= k < |c| ==> c[k].1.sourceUrl.Some? && c[k].1.sourceUrl.value != ""
    ensures e.1.sourceUrl.Some? && e.1.sourceUrl.value != ""
  {
    var j :| 0 <= j < |c| && c[j] == e;
  }

  /** Every transcript returned has a url and belongs to the quarter its concall time gives, newest first. */
  lemma FetchedNewestFirst(symbol: string, isin: string, items: seq<ApiItem>)
    ensures var sorted := SortNewestFirst(Collected(symbol, isin, items));
      && NewestFirst(sorted)
      && multiset(sorted) == multiset(Collected(symbol, isin, items))
      && (forall k :: 0 <= k < |sorted| ==> sorted[k].1.sourceUrl.Some? && sorted[k].1.sourceUrl.value != "")
  {
    var c := Collected(symbol, isin, items);
    var sorted := SortNewestFirst(c);
    forall k | 0 <= k < |sorted|
      ensures sorted[k].1.sourceUrl.Some? && sorted[k].1.sourceUrl.value != ""
    {
      CollectedHasUrl(c, sorted[k]);
    }
  }

  /** `(item.get('status') or '').strip().lower()` is empty or "upcoming". */
  predicate StatusAdmitted(status: Option<string>) {
    var s := Text.Lower(Text.Strip(if status.Some? then status.value else ""));
    s == "" || s == "upcoming"
  }

  function UpcomingTitle(p: Quarters.FyQuarter): string {
    Quarters.Name(p.quarter) + " FY" + Text.IntToString(p.fy) + " Earnings Call (Upcoming)"
  }

  /** The metadata `get_upcoming_calls` builds for one admitted item. */
  function UpcomingEntry(item: ApiItem, q: Quarters.FyQuarter, time: TimeText): (m: TranscriptMetadata)
    ensures m.sourceUrl.None? && m.eventDate == Some(StoredDate(time))
    ensures m.quarter == Quarters.Name(q.quarter) && m.year == q.fy
  {
    TranscriptMetadata(item.companyName, Quarters.Name(q.quarter), q.fy, None, UpcomingTitle(q), item.companyIsin, Some(StoredDate(time)))
  }

  /** What the loop of `get_upcoming_calls` does with one more item; None once a time failed to parse. */
  function UpcomingStep(acc: Option<seq<TranscriptMetadata>>, item: ApiItem): Option<seq<TranscriptMetadata>> {
    var time := EventTimeOf(item);
    if acc.None? then None
    else if !StatusAdmitted(item.status) || time.None? then acc
    else
      var q := CalculateFyQuarterOf(time);
      if q.Err? then None else Some(acc.value + [UpcomingEntry(item, q.value, time.value)])
  }

  /**
   * The loop of `get_upcoming_calls` over the items: None when some
   * admitted item's time does not parse, since the ValueError leaves the
   * loop and the handler returns an empty list.
   */
  function Upcoming(items: seq<ApiItem>): Option<seq<TranscriptMetadata>> {
    if items == [] then Some([]) else UpcomingStep(Upcoming(items[..|items| - 1]), items[|items| - 1])
  }

  /** Every upcoming entry comes from an admitted item with a parseable time, and has no url yet. */
  lemma {:induction false} UpcomingEntries(items: seq<ApiItem>)
    ensures var u := Upcoming(items);
      u.Some? ==> (|u.value| <= |items| &&
        forall k :: 0 <= k < |u.value| ==> u.value[k].sourceUrl.None? && u.value[k].eventDate.Some?)
  {
    if items != [] {
      UpcomingEntries(items[..|items| - 1]);
    }
  }

  /** An item the status filter turns away contributes nothing to the upcoming list. */
  lemma {:induction false} UpcomingSkipsOtherStatus(items: seq<ApiItem>, item: ApiItem)
    requires !StatusAdmitted(item.status)
    ensures Upcoming(items + [item]) == Upcoming(items)
  {
    assert (items + [item])[..|items|] == items;
  }

  /** Once an admitted item's time fails to parse, every longer prefix of the items yields nothing. */
  lemma {:induction false} UnparseableTimeEmptiesAll(items: seq<ApiItem>, i: nat, n: nat)
    requires i < n <= |items| && StatusAdmitted(items[i].status)
    requires EventTimeOf(items[i]).Some? && ParseEventTime(EventTimeOf(items[i])).None?
    ensures Upcoming(items[..n]).None?
    decreases n
  {
    assert items[..n][..n - 1] == items[..n - 1];
    if n == i + 1 {
      assert items[..n][n - 1] == items[i];
    } else {
      UnparseableTimeEmptiesAll(items, i, n - 1);
    }
  }

  /** The loop of `get_upcoming_calls`; None stands for the ValueError that ends it. */
  method CollectUpcoming(items: seq<ApiItem>) returns (result: Option<seq<TranscriptMetadata>>)
    ensures result == Upcoming(items)
  {
    var collected: seq<TranscriptMetadata> := [];
    var i := 0;
    while i < |items|
      invariant 0 <= i <= |items|
      invariant Upcoming(items[..i]) == Some(collected)
    {
      assert items[..i + 1][..i] == items[..i];
      assert Upcoming(items[..i + 1]) == UpcomingStep(Upcoming(items[..i]), items[i]);
      var item := items[i];
      var time := EventTimeOf(item);
      if !StatusAdmitted(item.status) || time.None? {
        i := i + 1;
        continue;
      }
      var q := CalculateFyQuarterOf(time);
      if q.Err? {
        UnparseableTimeEmptiesAll(items, i, |items|);
        assert items[..|items|] == items;
        return None;
      }
      collected := collected + [UpcomingEntry(item, q.value, time.value)];
      i := i + 1;
    }
    assert items[..i] == items;
    result := Some(collected);
  }

  /**
   * get_upcoming_calls. For a given symbol, `isin` is what the lookup
   * found; `response` is the decoded `data` list, or the error the request
   * raised. Every error, including an unparseable time, yields [].
   */
  method GetUpcomingCalls(symbol: Option<string>, isin: Option<string>, response: Result<seq<ApiItem>>)
    returns (result: seq<TranscriptMetadata>)
    ensures (Store.HasText(symbol) && isin.None?) || response.Err? ==> result == []
    ensures !(Store.HasText(symbol) && isin.None?) && response.Ok? ==>
      result == (var u := Upcoming(response.value); if u.Some? then u.value else [])
  {
    if Store.HasText(symbol) && isin.None? {
      return [];
    }
    if response.Err? {
      return [];
    }
    var collected := CollectUpcoming(response.value);
    result := if collected.Some? then collected.value else [];
  }

  // ---- _sanitize_url, with urllib.parse's urlsplit, quote and urlunsplit ----

  predicate IsAsciiAlnum(c: char) { Text.IsAsciiLetter(c) || Text.IsDigit(c) }

  /** The characters `quote` never escapes. */
  predicate AlwaysSafe(c: char) { IsAsciiAlnum(c) || c in "_.-~" }

  /** A character `quote(..., safe)` writes through unchanged. */
  predicate Kept(c: char, safe: string) { AlwaysSafe(c) || c in safe }

  function HexDigit(d: nat): char
    requires d < 16
  {
    "0123456789ABCDEF"[d]
  }

  /** The UTF-8 bytes of one code point. */
  function Utf8(c: char): (bytes: seq<nat>)
    ensures 1 <= |bytes| <= 4 && forall k :: 0 <= k < |bytes| ==> bytes[k] < 256
  {
    var n := c as int;
    if n < 0x80 then [n]
    else if n < 0x800 then [0xC0 + n / 64, 0x80 + n % 64]
    else if n < 0x10000 then [0xE0 + n / 4096, 0x80 + (n / 64) % 64, 0x80 + n % 64]
    else [0xF0 + n / 262144, 0x80 + (n / 4096) % 64, 0x80 + (n / 64) % 64, 0x80 + n % 64]
  }

  function PercentBytes(bytes: seq<nat>): (r: string)
    requires forall k :: 0 <= k < |bytes| ==> bytes[k] < 256
    ensures forall k :: 0 <= k < |r| ==> r[k] == '%' || IsAsciiAlnum(r[k])
  {
    if bytes == [] then ""
    else ['%', HexDigit(bytes[0] / 16), HexDigit(bytes[0] % 16)] + PercentBytes(bytes[1..])
  }

  /** `urllib.parse.quote(s, safe)` for a `safe` of ASCII characters. */
  function Quote(s: string, safe: string): (r: string)
    ensures s == [] <==> r == []
  {
    if s == [] then ""
    else (if Kept(s[0], safe) then [s[0]] else PercentBytes(Utf8(s[0]))) + Quote(s[1..], safe)
  }

  /** A string made only of characters `quote` keeps is returned as it is: escapes are not encoded twice. */
  lemma {:induction false} QuoteKeepsText(s: string, safe: string)
    requires forall k :: 0 <= k < |s| ==> Kept(s[k], safe)
    ensures Quote(s, safe) == s
  {
    if s != [] {
      QuoteKeepsText(s[1..], safe);
    }
  }

  /** With '%' safe, quoting yields only characters quoting keeps. */
  lemma {:induction false} QuoteOutputKept(s: string, safe: string)
    requires '%' in safe
    ensures forall k :: 0 <= k < |Quote(s, safe)| ==> Kept(Quote(s, safe)[k], safe)
  {
    if s != [] {
      QuoteOutputKept(s[1..], safe);
      var head := if Kept(s[0], safe) then [s[0]] else PercentBytes(Utf8(s[0]));
      assert Quote(s, safe) == head + Quote(s[1..], safe);
      forall k | 0 <= k < |Quote(s, safe)|
        ensures Kept(Quote(s, safe)[k], safe)
      {
        if k >= |head| {
          assert Quote(s, safe)[k] == Quote(s[1..], safe)[k - |head|];
        }
      }
    }
  }

  /** Quoting twice with '%' safe is quoting once. */
  lemma QuoteIdempotent(s: string, safe: string)
    requires '%' in safe
    ensures Quote(Quote(s, safe), safe) == Quote(s, safe)
  {
    QuoteOutputKept(s, safe);
    QuoteKeepsText(Quote(s, safe), safe);
  }

  /** The components `urlsplit` returns. */
  datatype UrlParts = UrlParts(scheme: string, netloc: string, path: string, query: string, fragment: string)

  /** The index of the first character of `s` that is in `cs`, or `|s|`. */
  function FirstOf(s: string, cs: string): (i: nat)
    ensures i <= |s|
    ensures i < |s| ==> s[i] in cs
    ensures forall j :: 0 <= j < i ==> s[j] !in cs
  {
    if s == [] || s[0] in cs then 0 else 1 + FirstOf(s[1..], cs)
  }

  predicate SchemeChar(c: char) { IsAsciiAlnum(c) || c in "+-." }

  /** `url.lstrip(C0 control or space)`. */
  function LStripC0(s: string): (r: string)
    ensures r == [] || r[0] as int > 32
  {
    if s != [] && s[0] as int <= 32 then LStripC0(s[1..]) else s
  }

  /** `s.split(c, 1)`: the text before the first `c`, and the text after it if there is one. */
  function SplitOnce(s: string, c: char): (r: (string, Option<string>))
    ensures c !in r.0
    ensures r.1.None? ==> r.0 == s
    ensures r.1.Some? ==> s == r.0 + [c] + r.1.value
  {
    var i := FirstOf(s, [c]);
    if i == |s| then (s, None) else (s[..i], Some(s[i + 1..]))
  }

  /**
   * urlsplit, as Python 3.12 writes it: leading controls and spaces go,
   * tabs and line breaks are removed, a scheme is taken before the first
   * ':' when it starts with a letter and holds only scheme characters, a
   * netloc after "//" up to the first '/', '?' or '#', then the fragment
   * and the query are split off. An unbalanced '[' or ']' in the netloc
   * raises ValueError.
   */
  function UrlSplit(url: string): (r: Result<UrlParts>)
    ensures r.Ok? ==> '/' !in r.value.netloc && '?' !in r.value.netloc && '#' !in r.value.netloc
    ensures r.Ok? ==> '?' !in r.value.path && '#' !in r.value.path && '#' !in r.value.query
    ensures r.Ok? ==> ('[' in r.value.netloc <==> ']' in r.value.netloc)
  {
    var (scheme, rest) := SchemeSplit(Cleaned(url));
    SplitAfterScheme(scheme, rest)
  }

  /** The url with leading controls and spaces stripped and its tabs and line breaks removed. */
  function Cleaned(url: string): string {
    Text.Replace(Text.Replace(Text.Replace(LStripC0(url), "\t", ""), "\r", ""), "\n", "")
  }

  /** The lower-cased scheme before the first ':' and the text after it, or no scheme and the whole text. */
  function SchemeSplit(u: string): (string, string) {
    var colon := FirstOf(u, ":");
    var hasScheme := 0 < colon < |u| && Text.IsAsciiLetter(u[0]) && forall k :: 0 <= k < colon ==> SchemeChar(u[k]);
    if hasScheme then (Text.Lower(u[..colon]), u[colon + 1..]) else ("", u)
  }

  /** urlsplit once the scheme is taken: the netloc after "//", then the fragment and the query. */
  function SplitAfterScheme(scheme: string, rest: string): (r: Result<UrlParts>)
    ensures r.Ok? ==> r.value.scheme == scheme
    ensures r.Ok? ==> '/' !in r.value.netloc && '?' !in r.value.netloc && '#' !in r.value.netloc
    ensures r.Ok? ==> '?' !in r.value.path && '#' !in r.value.path && '#' !in r.value.query
    ensures r.Ok? ==> ('[' in r.value.netloc <==> ']' in r.value.netloc)
  {
    var hasNetloc := |rest| >= 2 && rest[..2] == "//";
    var delim := if hasNetloc then 2 + FirstOf(rest[2..], "/?#") else 0;
    var netloc := if hasNetloc then rest[2..delim] else "";
    var tail := if hasNetloc then rest[delim..] else rest;
    if ('[' in netloc && ']' !in netloc) || (']' in netloc && '[' !in netloc) then Err("Invalid IPv6 URL")
    else Ok(SplitTail(scheme, netloc, tail))
  }

  /** The fragment after the first '#', then the query after the first '?' of what precedes it. */
  function SplitTail(scheme: string, netloc: string, tail: string): (p: UrlParts)
    ensures p.scheme == scheme && p.netloc == netloc
    ensures '?' !in p.path && '#' !in p.path && '#' !in p.query
  {
    var (beforeHash, fragment) := SplitOnce(tail, '#');
    var (path, query) := SplitOnce(beforeHash, '?');
    UrlParts(scheme, netloc, path, if query.Some? then query.value else "", if fragment.Some? then fragment.value else "")
  }

  /** urlunsplit for parts with a scheme and a netloc. */
  function UrlUnsplit(p: UrlParts): (r: string)
    ensures |r| >= |p.scheme| + 3 + |p.netloc| + |p.path|
    ensures r[..|p.scheme| + 3 + |p.netloc|] == p.scheme + "://" + p.netloc
    ensures p.path != "" && p.path[0] != '/' ==> r[|p.scheme| + 3 + |p.netloc|] == '/'
  {
    var path := if p.path != "" && p.path[0] != '/' then "/" + p.path else p.path;
    p.scheme + "://" + p.netloc + path + Marked('?', p.query) + Marked('#', p.fragment)
  }

  /** What urlunsplit writes starts with the scheme, "://" and the netloc. */
  lemma UnsplitPrefix(p: UrlParts)
    ensures UrlUnsplit(p)[..|p.scheme| + 3 + |p.netloc|] == p.scheme + "://" + p.netloc
  {
  }

  /**
   * Parts urlsplit can return for a url with a scheme: a lower-case scheme
   * of scheme characters starting with a letter, a netloc without
   * delimiters and with balanced brackets, a path that is empty or starts
   * with '/', and no component holding a delimiter of a later one, a tab
   * or a line break.
   */
  predicate Splittable(p: UrlParts) {
    && p.scheme != [] && Text.IsAsciiLetter(p.scheme[0])
    && (forall k :: 0 <= k < |p.scheme| ==> SchemeChar(p.scheme[k]) && !('A' <= p.scheme[k] <= 'Z'))
    && NoneOf(p.netloc, "/?#") && ('[' in p.netloc <==> ']' in p.netloc)
    && (p.path == [] || p.path[0] == '/') && NoneOf(p.path, "?#")
    && NoneOf(p.query, "#")
    && NoneOf(p.netloc, Breaks) && NoneOf(p.path, Breaks) && NoneOf(p.query, Breaks) && NoneOf(p.fragment, Breaks)
  }

  /** The tab and line breaks urlsplit removes. */
  const Breaks := "\t\r\n"

  /** No character of `s` is one of `cs`. */
  predicate NoneOf(s: string, cs: string) {
    forall k :: 0 <= k < |s| ==> s[k] !in cs
  }

  lemma NoneOfConcat(a: string, b: string, cs: string)
    requires NoneOf(a, cs) && NoneOf(b, cs)
    ensures NoneOf(a + b, cs)
  {
    forall k | 0 <= k < |a + b|
      ensures (a + b)[k] !in cs
    {
      if k >= |a| {
        assert (a + b)[k] == b[k - |a|];
      }
    }
  }

  /** Replacing a character that does not occur changes nothing. */
  lemma {:induction false} ReplaceAbsent(s: string, c: char, v: string)
    requires c !in s
    ensures Text.Replace(s, [c], v) == s
    decreases |s|
  {
    if s != [] {
      assert s[0] in s;
      assert s[..1] != [c];
      ReplaceAbsent(s[1..], c, v);
    }
  }

  /** Lower-casing a string without upper-case letters changes nothing. */
  lemma LowerKeeps(s: string)
    requires forall k :: 0 <= k < |s| ==> !('A' <= s[k] <= 'Z')
    ensures Text.Lower(s) == s
  {
    forall k | 0 <= k < |s|
      ensures Text.Lower(s)[k] == s[k]
    {
      Text.LowerAt(s, k);
    }
  }

  /** Splitting at a character that does not occur gives the whole text and nothing after it. */
  lemma SplitOnceAbsent(s: string, c: char)
    requires c !in s
    ensures SplitOnce(s, c) == (s, None)
  {
    assert FirstOf(s, [c]) == |s|;
  }

  /** Splitting at the first occurrence of a character gives the text before and after it. */
  lemma SplitOnceAt(a: string, c: char, b: string)
    requires c !in a
    ensures SplitOnce(a + [c] + b, c) == (a, Some(b))
  {
    var s := a + [c] + b;
    assert s[|a|] == c;
    assert forall j :: 0 <= j < |a| ==> s[j] == a[j];
    assert FirstOf(s, [c]) == |a|;
    assert s[..|a|] == a && s[|a| + 1..] == b;
  }

  /** The query and fragment urlunsplit writes after the path. */
  function UnsplitTail(p: UrlParts): string {
    Marked('?', p.query) + Marked('#', p.fragment)
  }

  /** The netloc runs from "//" to the first delimiter, which starts the tail. */
  lemma NetlocReads(scheme: string, netloc: string, tail: string)
    requires forall k :: 0 <= k < |netloc| ==> netloc[k] !in "/?#"
    requires '[' in netloc <==> ']' in netloc
    requires tail == [] || tail[0] in "/?#"
    ensures SplitAfterScheme(scheme, "//" + netloc + tail) == Ok(SplitTail(scheme, netloc, tail))
  {
    var rest := "//" + netloc + tail;
    assert rest[..2] == "//";
    var t := rest[2..];
    assert t == netloc + tail;
    assert forall j :: 0 <= j < |netloc| ==> t[j] == netloc[j];
    assert |netloc| < |t| ==> t[|netloc|] == tail[0];
    assert FirstOf(t, "/?#") == |netloc|;
    assert rest[2..2 + |netloc|] == netloc;
    assert rest[2 + |netloc|..] == tail;
  }

  /** What urlunsplit writes for an optional component: nothing, or its mark and the text. */
  function Marked(c: char, x: string): string {
    if x != "" then [c] + x else ""
  }

  /** Splitting at a mark written after a text without it gives the text and the component back. */
  lemma MarkedSplit(before: string, c: char, x: string)
    requires c !in before
    ensures SplitOnce(before + Marked(c, x), c) == (before, if x != "" then Some(x) else None)
  {
    if x != "" {
      assert before + Marked(c, x) == before + [c] + x;
      SplitOnceAt(before, c, x);
    } else {
      assert before + Marked(c, x) == before;
      SplitOnceAbsent(before, c);
    }
  }

  /** The tail urlunsplit writes splits back into path, query and fragment. */
  lemma TailReads(p: UrlParts)
    requires Splittable(p)
    ensures SplitTail(p.scheme, p.netloc, p.path + UnsplitTail(p)) == p
  {
    var beforeHash := p.path + Marked('?', p.query);
    assert p.path + UnsplitTail(p) == beforeHash + Marked('#', p.fragment);
    assert '#' !in p.path by {
      assert forall k :: 0 <= k < |p.path| ==> p.path[k] != '#';
    }
    assert '#' !in Marked('?', p.query) by {
      assert forall k :: 0 <= k < |p.query| ==> p.query[k] != '#';
    }
    MarkedSplit(beforeHash, '#', p.fragment);
    assert '?' !in p.path;
    MarkedSplit(p.path, '?', p.query);
  }

  /** A url starting with a printable character and holding no tab or line break is already clean. */
  lemma CleanedKeeps(w: string)
    requires w != [] && w[0] as int > 32
    requires NoneOf(w, Breaks)
    ensures Cleaned(w) == w
  {
    assert LStripC0(w) == w;
    assert '\t' !in w && '\r' !in w && '\n' !in w;
    ReplaceAbsent(w, '\t', "");
    ReplaceAbsent(w, '\r', "");
    ReplaceAbsent(w, '\n', "");
  }

  /** A lower-case scheme of scheme characters is read back before the ':' that follows it. */
  lemma SchemeSplitReads(scheme: string, rest: string)
    requires scheme != [] && Text.IsAsciiLetter(scheme[0])
    requires forall k :: 0 <= k < |scheme| ==> SchemeChar(scheme[k]) && !('A' <= scheme[k] <= 'Z')
    ensures SchemeSplit(scheme + ":" + rest) == (scheme, rest)
  {
    var u := scheme + ":" + rest;
    assert forall k :: 0 <= k < |scheme| ==> u[k] == scheme[k];
    assert u[|scheme|] == ':';
    assert FirstOf(u, ":") == |scheme|;
    LowerKeeps(scheme);
    assert u[..|scheme|] == scheme;
    assert u[|scheme| + 1..] == rest;
  }

  /** urlsplit reads back what urlunsplit writes, for parts urlsplit can return. */
  lemma SplitUnsplit(p: UrlParts)
    requires Splittable(p)
    ensures UrlSplit(UrlUnsplit(p)) == Ok(p)
  {
    var tail := p.path + UnsplitTail(p);
    UnsplitClean(p);
    UnsplitRegroup(p);
    SchemeSplitReads(p.scheme, "//" + p.netloc + tail);
    assert tail == [] || tail[0] in "/?#";
    NetlocReads(p.scheme, p.netloc, tail);
    TailReads(p);
  }

  /** A path that is empty or starts with '/' is written as it is, after "//" and the netloc. */
  lemma UnsplitRegroup(p: UrlParts)
    requires p.path == [] || p.path[0] == '/'
    ensures UrlUnsplit(p) == p.scheme + ":" + ("//" + p.netloc + (p.path + UnsplitTail(p)))
  {
    var q := Marked('?', p.query);
    var f := Marked('#', p.fragment);
    calc {
      UrlUnsplit(p);
      p.scheme + "://" + p.netloc + p.path + q + f;
      { assert p.scheme + "://" == p.scheme + ":" + "//"; }
      p.scheme + ":" + "//" + p.netloc + p.path + q + f;
      p.scheme + ":" + ("//" + p.netloc + (p.path + (q + f)));
    }
  }

  /** What urlunsplit writes has nothing urlsplit would strip or remove. */
  lemma UnsplitClean(p: UrlParts)
    requires Splittable(p)
    ensures Cleaned(UrlUnsplit(p)) == UrlUnsplit(p)
  {
    assert NoneOf(p.scheme, Breaks);
    assert NoneOf(Marked('?', p.query), Breaks) && NoneOf(Marked('#', p.fragment), Breaks);
    NoneOfConcat(p.scheme, "://", Breaks);
    NoneOfConcat(p.scheme + "://", p.netloc, Breaks);
    NoneOfConcat(p.scheme + "://" + p.netloc, p.path, Breaks);
    NoneOfConcat(p.scheme + "://" + p.netloc + p.path, Marked('?', p.query), Breaks);
    NoneOfConcat(p.scheme + "://" + p.netloc + p.path + Marked('?', p.query), Marked('#', p.fragment), Breaks);
    CleanedKeeps(UrlUnsplit(p));
  }

  /** The fallback of _sanitize_url: spaces written as %20 and nothing else changed. */
  function SpacesEscaped(raw: string): string {
    Text.Replace(raw, " ", "%20")
  }

  /**
   * _sanitize_url. An empty or missing url is returned as it is; a url
   * without a scheme or a netloc, or one urlsplit rejects, only gets its
   * spaces escaped; otherwise path, query and fragment are quoted with '%'
   * kept, so escapes already present survive.
   */
  function SanitizeUrl(url: Option<string>): (r: Option<string>)
    ensures url.None? <==> r.None?
    ensures url.Some? && url.value == "" ==> r == url
    ensures url.Some? && Text.Strip(url.value) == "" ==> r == Some("")
  {
    if url.None? || url.value == "" then url
    else
      var raw := Text.Strip(url.value);
      if raw == "" then Some(raw)
      else
        var parts := UrlSplit(raw);
        if parts.Err? || parts.value.scheme == "" || parts.value.netloc == "" then Some(SpacesEscaped(raw))
        else
          Some(UrlUnsplit(Quoted(parts.value)))
  }

  /** The parts with path, query and fragment quoted, each with its own safe characters. */
  function Quoted(p: UrlParts): UrlParts {
    UrlParts(p.scheme, p.netloc, Quote(p.path, "/%"), Quote(p.query, "=&%"), Quote(p.fragment, "%"))
  }

  /** Replacing a one-character pattern by text without it leaves none of that character. */
  lemma {:induction false} ReplaceRemovesChar(s: string, c: char, v: string)
    requires c !in v
    ensures c !in Text.Replace(s, [c], v)
    decreases |s|
  {
    if |s| >= 1 {
      if s[..1] == [c] {
        ReplaceRemovesChar(s[1..], c, v);
      } else {
        ReplaceRemovesChar(s[1..], c, v);
        assert s[0] != c;
      }
    }
  }

  /** A relative url comes back with every space escaped and no space left. */
  lemma RelativeUrlOnlyEscapesSpaces(url: string)
    requires Text.Strip(url) != ""
    requires var p := UrlSplit(Text.Strip(url)); p.Err? || p.value.scheme == "" || p.value.netloc == ""
    ensures SanitizeUrl(Some(url)) == Some(SpacesEscaped(Text.Strip(url)))
    ensures ' ' !in SanitizeUrl(Some(url)).value
  {
    ReplaceRemovesChar(Text.Strip(url), ' ', "%20");
  }

  /** Quoting the parts a second time changes nothing: escapes are not encoded twice. */
  lemma QuotedIdempotent(p: UrlParts)
    ensures Quoted(Quoted(p)) == Quoted(p)
  {
    QuoteIdempotent(p.path, "/%");
    QuoteIdempotent(p.query, "=&%");
    QuoteIdempotent(p.fragment, "%");
  }

  /** An absolute url comes back as its quoted parts joined again. */
  lemma SanitizedAbsolute(url: string, p: UrlParts)
    requires Text.Strip(url) != "" && UrlSplit(Text.Strip(url)) == Ok(p) && p.scheme != "" && p.netloc != ""
    ensures SanitizeUrl(Some(url)) == Some(UrlUnsplit(Quoted(p)))
  {
  }

  /**
   * An absolute url keeps its scheme and netloc in front, and its quoted
   * parts are left alone by a second quoting.
   */
  lemma AbsoluteUrlQuotedOnce(url: string, p: UrlParts)
    requires Text.Strip(url) != "" && UrlSplit(Text.Strip(url)) == Ok(p) && p.scheme != "" && p.netloc != ""
    ensures SanitizeUrl(Some(url)).Some?
    ensures var r := SanitizeUrl(Some(url)).value;
      |p.scheme| + 3 + |p.netloc| <= |r| && r[..|p.scheme| + 3 + |p.netloc|] == p.scheme + "://" + p.netloc
    ensures SanitizeUrl(Some(url)) == Some(UrlUnsplit(Quoted(Quoted(p))))
  {
    SanitizedAbsolute(url, p);
    UnsplitPrefix(Quoted(p));
    QuotedIdempotent(p);
  }
}
