/**
 * The file-naming helpers of the document downloader
 * (stocklib-app/stocklib_app.py): the base name a download is saved
 * under, and the extension chosen from the response headers.
 *
 * Regular-expression classes are taken over ASCII: `\d` is 0-9, `\w` is
 * letters, digits and `_`, and IGNORECASE folds ASCII letters only.
 */
module StocklibFiles {
  import opened Wrappers
  import opened Text

  // ---------------------------------------------------------------------
  // format_filename_base
  // ---------------------------------------------------------------------

  /**
   * `re.match(r'^\d{4}$', s)`: four digits, where `$` also accepts one
   * final newline. Such a date is safe except for that newline.
   */
  function IsYear(s: string): (b: bool)
    ensures b <==> |s| >= 4 && (forall i :: 0 <= i < 4 ==> IsDigit(s[i])) && (s[4..] == "" || s[4..] == "\n")
    ensures b ==> forall i :: 0 <= i < |s| ==> IsSafe(s[i]) || (i == 4 && s[i] == '\n')
  {
    (|s| == 4 || (|s| == 5 && s[4] == '\n')) && IsDigit(s[0]) && IsDigit(s[1]) && IsDigit(s[2]) && IsDigit(s[3])
  }

  /**
   * `re.match(r'^\d{4}-\d{2}$', s)`, with the same final-newline allowance:
   * a year, '-' and two digits. No date is both a year and a year-month.
   */
  function IsYearMonth(s: string): (b: bool)
    ensures b <==> |s| >= 7 && IsYear(s[..4]) && s[4] == '-' && IsDigit(s[5]) && IsDigit(s[6]) && (s[7..] == "" || s[7..] == "\n")
    ensures b ==> !IsYear(s)
    ensures b ==> forall i :: 0 <= i < |s| ==> IsSafe(s[i]) || (i == 7 && s[i] == '\n')
  {
    && (|s| == 7 || (|s| == 8 && s[7] == '\n'))
    && IsDigit(s[0]) && IsDigit(s[1]) && IsDigit(s[2]) && IsDigit(s[3])
    && s[4] == '-' && IsDigit(s[5]) && IsDigit(s[6])
  }

  /** The characters `[\w\.-]` keeps. */
  predicate IsSafe(c: char) {
    IsAsciiLetter(c) || IsDigit(c) || c == '_' || c == '.' || c == '-'
  }

  /** `re.sub(r'[^\w\.-]', '_', s)`: every other character becomes an underscore. */
  function Clean(s: string): (r: string)
    ensures |r| == |s|
    ensures forall i :: 0 <= i < |r| ==> IsSafe(r[i])
    ensures forall i :: 0 <= i < |s| && IsSafe(s[i]) ==> r[i] == s[i]
    ensures forall i :: 0 <= i < |s| && !IsSafe(s[i]) ==> r[i] == '_'
  {
    if s == [] then [] else [if IsSafe(s[0]) then s[0] else '_'] + Clean(s[1..])
  }

  /**
   * `format_filename_base`: a year or year-month date verbatim, any other
   * date cleaned, then `_` and the type. The base ends in `_` and the
   * document type, and everything before that is a safe character, except
   * the final newline a year or year-month date may carry through.
   */
  function FormatFilenameBase(date: string, docType: string): (r: string)
    ensures |r| == |date| + 1 + |docType|
    ensures r[|date|..] == "_" + docType
    ensures forall i :: 0 <= i < |date| ==>
      IsSafe(r[i]) || (r[i] == '\n' && i == |date| - 1 && (IsYear(date) || IsYearMonth(date)))
  {
    (if IsYear(date) || IsYearMonth(date) then date else Clean(date)) + "_" + docType
  }

  /** Cleaning twice is cleaning once. */
  lemma CleanIdempotent(s: string)
    ensures Clean(Clean(s)) == Clean(s)
  {
    SafeKept(Clean(s));
  }

  /** A name made of safe characters is its own cleaning. */
  lemma {:induction false} SafeKept(s: string)
    requires forall i :: 0 <= i < |s| ==> IsSafe(s[i])
    ensures Clean(s) == s
  {
    if s != [] {
      SafeKept(s[1..]);
    }
  }

  /**
   * The year and year-month shortcuts only skip work: on a date without a
   * final newline they give what cleaning gives.
   */
  lemma {:induction false} ShortcutsAgreeWithClean(date: string, docType: string)
    requires IsYear(date) || IsYearMonth(date)
    requires date[|date| - 1] != '\n'
    ensures FormatFilenameBase(date, docType) == Clean(date) + "_" + docType
  {
    SafeKept(date);
  }

  /** A year with a final newline keeps that newline in the file name. */
  lemma {:induction false} YearNewlineKept(date: string, docType: string)
    requires IsYear(date) && |date| == 5
    ensures FormatFilenameBase(date, docType)[4] == '\n'
  {
  }

  // ---------------------------------------------------------------------
  // get_extension_from_response
  // ---------------------------------------------------------------------

  /** `[^";\s]`: a character of a file-name token. */
  predicate IsTokenChar(c: char) {
    c != '"' && c != ';' && !IsSpace(c)
  }

  /** The end of the longest run of token characters starting at `k`. */
  function TokenEnd(s: string, k: nat): (e: nat)
    requires k <= |s|
    ensures k <= e <= |s|
    ensures forall j :: k <= j < e ==> IsTokenChar(s[j])
    ensures e < |s| ==> !IsTokenChar(s[e])
    decreases |s| - k
  {
    if k == |s| || !IsTokenChar(s[k]) then k else TokenEnd(s, k + 1)
  }

  /** `w` (lower case) appears at `i`, ignoring the case of ASCII letters. */
  predicate LowerMatches(s: string, i: nat, w: string) {
    i + |w| <= |s| && forall j :: 0 <= j < |w| ==> LowerChar(s[i + j]) == w[j]
  }

  /**
   * Where `UTF-\d{1,2}''` ends when it appears at `k`: two digits are
   * tried first, then one.
   */
  function UtfEnd(s: string, k: nat): (e: Option<nat>)
    ensures e.Some? ==> k + 7 <= e.value <= |s| && e.value <= k + 8
  {
    if !LowerMatches(s, k, "utf-") || k + 4 >= |s| || !IsDigit(s[k + 4]) then None
    else if k + 8 <= |s| && IsDigit(s[k + 5]) && s[k + 6] == '\'' && s[k + 7] == '\'' then Some(k + 8)
    else if k + 7 <= |s| && s[k + 5] == '\'' && s[k + 6] == '\'' then Some(k + 7)
    else None
  }

  /**
   * The pattern `filename\*?=(?:UTF-\d{1,2}''|")?([^";\s]+)` tried at `i`:
   * its end and the captured token. The optional prefix is taken when the
   * token after it is not empty; otherwise the regular expression backs
   * off and the token starts right after `=`.
   */
  function MatchAt(s: string, i: nat): (m: Option<(nat, string)>)
    ensures m.Some? ==>
      && i < m.value.0 <= |s| && m.value.1 != []
      && forall j :: 0 <= j < |m.value.1| ==> IsTokenChar(m.value.1[j])
  {
    if !LowerMatches(s, i, "filename") then None
    else
      var j := if i + 8 < |s| && s[i + 8] == '*' then i + 9 else i + 8;
      if j >= |s| || s[j] != '=' then None
      else
        var k := j + 1;
        var u := UtfEnd(s, k);
        if u.Some? && TokenEnd(s, u.value) > u.value then
          Some((TokenEnd(s, u.value), s[u.value..TokenEnd(s, u.value)]))
        else if k < |s| && s[k] == '"' && TokenEnd(s, k + 1) > k + 1 then
          Some((TokenEnd(s, k + 1), s[k + 1..TokenEnd(s, k + 1)]))
        else if TokenEnd(s, k) > k then
          Some((TokenEnd(s, k), s[k..TokenEnd(s, k)]))
        else None
  }

  /** `re.findall` of that pattern from `i`: the tokens of the non-overlapping matches, left to right. */
  function FindAll(s: string, i: nat): (tokens: seq<string>)
    ensures forall t :: t in tokens ==> t != [] && forall j :: 0 <= j < |t| ==> IsTokenChar(t[j])
    decreases |s| - i
  {
    if i >= |s| then []
    else
      match MatchAt(s, i)
      case Some((e, t)) => [t] + FindAll(s, e)
      case None => FindAll(s, i + 1)
  }

  /** The last index of `c` in `s`, or -1. */
  function LastIndex(s: string, c: char): (i: int)
    ensures -1 <= i < |s|
    ensures i >= 0 ==> s[i] == c
    ensures forall j :: i < j < |s| ==> s[j] != c
  {
    if s == [] then -1
    else if s[|s| - 1] == c then |s| - 1
    else LastIndex(s[..|s| - 1], c)
  }

  /**
   * The extension `os.path.splitext` splits off on POSIX: from the last dot
   * after the last slash, provided some character before that dot in the
   * last component is not a dot; otherwise none.
   */
  function SplitExt(p: string): (ext: string)
    ensures |ext| <= |p|
    ensures ext != [] ==> ext[0] == '.' && '/' !in ext && ext == p[|p| - |ext|..]
  {
    var sep := LastIndex(p, '/');
    var dot := LastIndex(p, '.');
    if dot > sep && exists j :: sep + 1 <= j < dot && p[j] != '.' then
      assert forall j :: dot < j < |p| ==> p[j] != '/';
      p[dot..]
    else []
  }

  /**
   * The Content-Disposition branch: the last file name the header gives,
   * percent-decoded by `unquote` (urllib.parse.unquote, a parameter here),
   * and its extension when that is 2 to 6 characters long, lowered.
   */
  function DispositionExt(disposition: Option<string>, unquote: string -> string): (e: Option<string>)
    ensures e.Some? ==> 2 <= |e.value| <= 6 && e.value[0] == '.'
  {
    if disposition.None? || disposition.value == [] then None
    else
      var names := FindAll(disposition.value, 0);
      if names == [] then None
      else
        var ext := SplitExt(unquote(names[|names| - 1]));
        if 1 < |ext| < 7 then
          LowerAt(ext, 0);
          Some(Lower(ext))
        else None
  }

  /** The Content-Type branch: the media type before any `;`, stripped and lowered, if it is one of three. */
  function TypeExt(contentType: Option<string>): (e: Option<string>)
    ensures e.Some? ==> e.value in {".pdf", ".zip", ".csv"}
  {
    if contentType.None? || contentType.value == [] then None
    else
      var ct := Lower(Strip(SplitOn(contentType.value, ';')[0]));
      if ct == "application/pdf" then Some(".pdf")
      else if ct == "application/zip" then Some(".zip")
      else if ct == "text/csv" then Some(".csv")
      else None
  }

  /** `get_extension_from_response`: the header's file name first, then the media type, then `.pdf`. */
  function GetExtension(disposition: Option<string>, contentType: Option<string>, unquote: string -> string): (r: string)
    ensures 2 <= |r| <= 6 && r[0] == '.'
    ensures Lower(r) == r
  {
    var d := DispositionExt(disposition, unquote);
    if d.Some? then
      LowerIdempotent(SplitExt(unquote(FindAll(disposition.value, 0)[|FindAll(disposition.value, 0)| - 1])));
      d.value
    else
      var t := TypeExt(contentType);
      if t.Some? then t.value else ".pdf"
  }

  /** Lowering twice is lowering once. */
  lemma {:induction false} LowerIdempotent(s: string)
    ensures Lower(Lower(s)) == Lower(s)
  {
    if s != [] {
      LowerIdempotent(s[1..]);
    }
  }

  /** When the header names no usable file, the media type decides, and `.pdf` is the fallback. */
  lemma TypeDecides(disposition: Option<string>, contentType: Option<string>, unquote: string -> string)
    requires DispositionExt(disposition, unquote).None?
    ensures GetExtension(disposition, contentType, unquote) in {".pdf", ".zip", ".csv"}
    ensures TypeExt(contentType).None? ==> GetExtension(disposition, contentType, unquote) == ".pdf"
  {
  }

  /** A plain `filename=<name>` is found whole, when the name does not itself start with `UTF-`. */
  lemma {:induction false} PlainFilenameFound(name: string)
    requires name != [] && forall j :: 0 <= j < |name| ==> IsTokenChar(name[j])
    requires LowerChar(name[0]) != 'u'
    ensures FindAll("filename=" + name, 0) == [name]
  {
    var s := "filename=" + name;
    assert forall j :: 0 <= j < |name| ==> s[9 + j] == name[j];
    assert LowerMatches(s, 0, "filename");
    assert s[8] == '=' && s[9] == name[0] && "utf-"[0] == 'u';
    assert UtfEnd(s, 9).None?;
    assert IsTokenChar(name[0]);
    TokenRun(s, 9);
    assert s[9..TokenEnd(s, 9)] == name;
    assert MatchAt(s, 0) == Some((|s|, name));
  }

  /** `filename="<name>"` gives the name without its quotes. */
  lemma {:induction false} QuotedFilenameFound(name: string)
    requires name != [] && forall j :: 0 <= j < |name| ==> IsTokenChar(name[j])
    ensures FindAll("filename=\"" + name + "\"", 0) == [name]
  {
    var s := "filename=\"" + name + "\"";
    assert forall j :: 0 <= j < |name| ==> s[10 + j] == name[j];
    assert s[|s| - 1] == '"';
    assert LowerMatches(s, 0, "filename");
    assert s[8] == '=' && s[9] == '"' && "utf-"[0] == 'u';
    assert UtfEnd(s, 9).None?;
    TokenRunTo(s, 10, |s| - 1);
    assert s[10..|s| - 1] == name;
    assert MatchAt(s, 0) == Some((|s| - 1, name));
    NoMatchInQuote(s, |s| - 1);
  }

  /** A token run reaching the end of the text. */
  lemma {:induction false} TokenRun(s: string, k: nat)
    requires k <= |s| && forall j :: k <= j < |s| ==> IsTokenChar(s[j])
    ensures TokenEnd(s, k) == |s|
    decreases |s| - k
  {
    if k < |s| {
      TokenRun(s, k + 1);
    }
  }

  /** A token run stopped by a non-token character at `e`. */
  lemma {:induction false} TokenRunTo(s: string, k: nat, e: nat)
    requires k <= e < |s| && !IsTokenChar(s[e]) && forall j :: k <= j < e ==> IsTokenChar(s[j])
    ensures TokenEnd(s, k) == e
    decreases e - k
  {
    if k < e {
      TokenRunTo(s, k + 1, e);
    }
  }

  /** Nothing is found in a tail too short to hold `filename=`. */
  lemma {:induction false} NoMatchInQuote(s: string, i: nat)
    requires |s| <= i + 8
    ensures FindAll(s, i) == []
    decreases |s| - i
  {
    if i < |s| {
      NoMatchInQuote(s, i + 1);
    }
  }
}
