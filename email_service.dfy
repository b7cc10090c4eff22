/**
 * The string side of backend/services/email_service.py: `{{KEY}}`
 * substitution in a template, the guard of `send_email`, and the fields
 * `send_analysis_email` fills in. The SMTP exchange, reading template files
 * and Markdown-to-HTML rendering are outside the model; their outcome is a
 * parameter.
 */
module EmailService {
  import opened Wrappers
  import Text

  /** The placeholder `{{KEY}}` for one template variable. */
  function Placeholder(key: string): string {
    "{{" + key + "}}"
  }

  /** The template after the first n substitutions of the loop in `render_template`. */
  function Rendered(template: string, variables: seq<(string, string)>): string
    decreases |variables|
  {
    if variables == [] then template
    else
      var last := variables[|variables| - 1];
      Text.Replace(Rendered(template, variables[..|variables| - 1]), Placeholder(last.0), last.1)
  }

  /** The substitution loop of `render_template`, rebinding `template` once per variable. */
  method RenderTemplate(template: string, variables: seq<(string, string)>) returns (result: string)
    ensures result == Rendered(template, variables)
  {
    result := template;
    var i := 0;
    while i < |variables|
      invariant 0 <= i <= |variables|
      invariant result == Rendered(template, variables[..i])
    {
      assert variables[..i + 1][..i] == variables[..i];
      result := Text.Replace(result, Placeholder(variables[i].0), variables[i].1);
      i := i + 1;
    }
    assert variables[..i] == variables;
  }

  /** A template in which no occurrence of the pattern starts is returned unchanged. */
  lemma {:induction false} ReplaceAbsent(s: string, p: string, v: string)
    requires forall k :: 0 <= k <= |s| ==> !Text.OccursAt(s, p, k)
    ensures Text.Replace(s, p, v) == s
    decreases |s|
  {
    if p != [] && |s| >= |p| {
      assert !Text.OccursAt(s, p, 0);
      assert s[..|p|] != p;
      forall k | 0 <= k <= |s[1..]|
        ensures !Text.OccursAt(s[1..], p, k)
      {
        assert !Text.OccursAt(s, p, k + 1);
      }
      ReplaceAbsent(s[1..], p, v);
      assert s == [s[0]] + s[1..];
    }
  }

  /**
   * The leftmost occurrence is the one replaced: when `p` first occurs in
   * `a + p + b` right after `a`, the result is `a`, then `v`, then the rest
   * processed from the end of that occurrence on.
   */
  lemma {:induction false} ReplaceLeftmost(a: string, p: string, b: string, v: string)
    requires p != []
    requires forall k :: 0 <= k < |a| ==> !Text.OccursAt(a + p + b, p, k)
    ensures Text.Replace(a + p + b, p, v) == a + v + Text.Replace(b, p, v)
    decreases |a|
  {
    var s := a + p + b;
    if a == [] {
      assert s == p + b && s[..|p|] == p && s[|p|..] == b;
    } else {
      var t := a[1..] + p + b;
      assert s[1..] == t;
      assert !Text.OccursAt(s, p, 0);
      assert Text.Replace(s, p, v) == [s[0]] + Text.Replace(t, p, v);
      forall k | 0 <= k < |a[1..]|
        ensures !Text.OccursAt(t, p, k)
      {
        assert !Text.OccursAt(s, p, k + 1);
        assert s[k + 1..k + 1 + |p|] == t[k..k + |p|];
      }
      ReplaceLeftmost(a[1..], p, b, v);
      assert a == [a[0]] + a[1..];
    }
  }

  /** Replacing a placeholder by itself changes nothing. */
  lemma {:induction false} ReplaceSelf(s: string, p: string)
    ensures Text.Replace(s, p, p) == s
    decreases |s|
  {
    if p != [] && |s| >= |p| {
      if s[..|p|] == p {
        ReplaceSelf(s[|p|..], p);
        assert s == s[..|p|] + s[|p|..];
      } else {
        ReplaceSelf(s[1..], p);
        assert s == [s[0]] + s[1..];
      }
    }
  }

  /** A template that mentions none of the supplied placeholders renders to itself. */
  lemma {:induction false} RenderWithoutPlaceholders(template: string, variables: seq<(string, string)>)
    requires forall i, k :: 0 <= i < |variables| && 0 <= k <= |template| ==>
      !Text.OccursAt(template, Placeholder(variables[i].0), k)
    ensures Rendered(template, variables) == template
    decreases |variables|
  {
    if variables != [] {
      var prefix := variables[..|variables| - 1];
      RenderWithoutPlaceholders(template, prefix);
      var last := variables[|variables| - 1];
      ReplaceAbsent(template, Placeholder(last.0), last.1);
    }
  }

  const NoSmtpConfig: string := "No active SMTP configuration found"
  const AuthPrefix: string := "SMTP authentication failed: "
  const SendPrefix: string := "Failed to send email: "

  /**
   * What the SMTP exchange raised: smtplib's SMTPAuthenticationError, caught
   * by its own handler, or any other exception.
   */
  datatype SmtpError = AuthFailure(detail: string) | OtherFailure(detail: string)

  /**
   * send_email: without an active SMTP configuration it raises before any
   * network step; otherwise an authentication failure and any other failure
   * of the exchange are re-raised, each with its own prefix.
   */
  function SendEmail(smtpConfigured: bool, transportError: Option<SmtpError>): (r: Result<bool>)
    ensures !smtpConfigured ==> r == Err(NoSmtpConfig)
    ensures smtpConfigured ==> (r.Ok? <==> transportError.None?)
    ensures smtpConfigured && transportError.Some? ==>
      r.Err? && r.error == (if transportError.value.AuthFailure? then AuthPrefix else SendPrefix) + transportError.value.detail
  {
    if !smtpConfigured then Err(NoSmtpConfig)
    else if transportError.Some? then
      match transportError.value
      case AuthFailure(d) => Err(AuthPrefix + d)
      case OtherFailure(d) => Err(SendPrefix + d)
    else Ok(true)
  }

  /** The two failure messages of a configured send never coincide: the text tells which handler ran. */
  lemma SmtpErrorsDistinct(d1: string, d2: string)
    ensures SendEmail(true, Some(AuthFailure(d1))) != SendEmail(true, Some(OtherFailure(d2)))
  {
    var a := SendEmail(true, Some(AuthFailure(d1))).error;
    var o := SendEmail(true, Some(OtherFailure(d2))).error;
    assert a[0] == 'S' && o[0] == 'F';
  }

  /** Without a configuration no transport outcome can make a difference. */
  lemma UnconfiguredIgnoresTransport(e1: Option<SmtpError>, e2: Option<SmtpError>)
    ensures SendEmail(false, e1) == SendEmail(false, e2)
  {
  }

  /** Python's `str()` of an optional text value. */
  function Str(s: Option<string>): string {
    if s.Some? then s.value else "None"
  }

  /** The MODEL_NAME field: the model name when given, else the provider name upper-cased. */
  function DisplayModel(modelName: Option<string>, provider: string): (d: string)
    ensures modelName.Some? && modelName.value != "" ==> d == modelName.value
    ensures (modelName.None? || modelName.value == "") ==> d == Text.Upper(provider)
  {
    if modelName.Some? && modelName.value != "" then modelName.value else Text.Upper(provider)
  }

  /** The TRANSCRIPT_URL field: the url when given, else '#'. */
  function TranscriptLink(url: Option<string>): (l: string)
    ensures url.Some? && url.value != "" ==> l == url.value
    ensures (url.None? || url.value == "") ==> l == "#"
  {
    if url.Some? && url.value != "" then url.value else "#"
  }

  /** The rendered message `send_analysis_email` hands to `send_email`. */
  datatype AnalysisEmail = AnalysisEmail(to: string, subject: string, variables: seq<(string, string)>)

  /** The variables and subject of the analysis report, in the order the source lists them. */
  function AnalysisEmailFor(to: string, symbol: Option<string>, stockName: string, quarter: string, year: int,
                            analysisHtml: string, provider: string, modelName: Option<string>,
                            transcriptUrl: Option<string>, generatedDate: string): (m: AnalysisEmail)
    ensures m.to == to
    ensures |m.variables| == 9
    ensures m.variables[6] == ("MODEL_NAME", DisplayModel(modelName, provider))
    ensures m.variables[7] == ("TRANSCRIPT_URL", TranscriptLink(transcriptUrl))
  {
    AnalysisEmail(
      to,
      "\U{1F4CA} Analysis Report: " + Str(symbol) + " - " + quarter + " " + Text.IntToString(year),
      [("STOCK_SYMBOL", Str(symbol)), ("STOCK_NAME", stockName), ("QUARTER", quarter),
       ("YEAR", Text.IntToString(year)), ("ANALYSIS_CONTENT", analysisHtml),
       ("MODEL_PROVIDER", Text.Upper(provider)), ("MODEL_NAME", DisplayModel(modelName, provider)),
       ("TRANSCRIPT_URL", TranscriptLink(transcriptUrl)), ("GENERATED_DATE", generatedDate)])
  }

  /** send_analysis_email: any failure of the send is re-raised with the method's own prefix. */
  function SendAnalysisEmail(smtpConfigured: bool, transportError: Option<SmtpError>): (r: Result<bool>)
    ensures r.Ok? <==> smtpConfigured && transportError.None?
    ensures !smtpConfigured ==> r == Err("Failed to send analysis email: " + NoSmtpConfig)
    ensures r.Err? ==> r.error == "Failed to send analysis email: " + SendEmail(smtpConfigured, transportError).error
  {
    match SendEmail(smtpConfigured, transportError)
    case Ok(sent) => Ok(sent)
    case Err(e) => Err("Failed to send analysis email: " + e)
  }
}
