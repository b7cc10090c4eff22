/**
 * Keyword binding at the two call sites of `LLMService.generate`
 * (backend/services/llm/llm_service.py:65-73). A Python call that passes a
 * keyword the callee does not declare raises TypeError before the callee
 * runs, whatever the collaborator would have answered.
 */
module CallSites {
  import opened Wrappers
  import Text

  /** What a call of the LLM collaborator produced: a response or an exception's text. */
  datatype LlmOutcome = Generated(output: string, provider: string, modelId: Option<string>)
                      | Raised(message: string)

  /** The keyword arguments that occur at the call sites or in the callee's signature. */
  datatype Keyword = Prompt | SystemPrompt | ModelId | ThinkingMode | ThinkingBudget | MaxTokens | TaskType

  function Name(k: Keyword): string {
    match k
    case Prompt => "prompt"
    case SystemPrompt => "system_prompt"
    case ModelId => "model_id"
    case ThinkingMode => "thinking_mode"
    case ThinkingBudget => "thinking_budget"
    case MaxTokens => "max_tokens"
    case TaskType => "task_type"
  }

  /** The parameters `LLMService.generate` declares, in order. */
  const GenerateParameters: seq<Keyword> := [Prompt, SystemPrompt, ModelId, ThinkingMode, ThinkingBudget, MaxTokens]

  /** The keywords of the worker's call as written (backend/services/analysis_queue_worker.py:136-142). */
  const AnalysisCallAsWritten: seq<Keyword> := [Prompt, SystemPrompt, ThinkingMode, MaxTokens, TaskType]

  /** The keywords of the group-research call as written (backend/services/group_research_service.py:363-369). */
  const GroupResearchCallAsWritten: seq<Keyword> := [Prompt, SystemPrompt, ThinkingMode, MaxTokens, TaskType]

  /** Both calls without the undeclared `task_type` keyword. */
  const GenerateCall: seq<Keyword> := [Prompt, SystemPrompt, ThinkingMode, MaxTokens]

  /** The first keyword of the call that the callee does not declare. */
  function UnexpectedKeyword(parameters: seq<Keyword>, keywords: seq<Keyword>): (r: Option<Keyword>)
    ensures r.None? <==> forall k :: 0 <= k < |keywords| ==> keywords[k] in parameters
    ensures r.Some? ==> r.value in keywords && r.value !in parameters
  {
    if keywords == [] then None
    else if keywords[0] !in parameters then Some(keywords[0])
    else UnexpectedKeyword(parameters, keywords[1..])
  }

  function TypeErrorMessage(keyword: Keyword): string {
    "LLMService.generate() got an unexpected keyword argument '" + Name(keyword) + "'"
  }

  /** Calling `generate` with these keywords, when the collaborator itself would answer `outcome`. */
  function CallGenerate(keywords: seq<Keyword>, outcome: LlmOutcome): (r: LlmOutcome)
    ensures UnexpectedKeyword(GenerateParameters, keywords).None? ==> r == outcome
    ensures UnexpectedKeyword(GenerateParameters, keywords).Some? ==> r.Raised?
  {
    match UnexpectedKeyword(GenerateParameters, keywords)
    case Some(k) => Raised(TypeErrorMessage(k))
    case None => outcome
  }

  /** As written, both call sites raise TypeError on every call: no response ever reaches the caller. */
  lemma CallAsWrittenAlwaysRaises(outcome: LlmOutcome)
    ensures CallGenerate(AnalysisCallAsWritten, outcome) == Raised(TypeErrorMessage(TaskType))
    ensures CallGenerate(GroupResearchCallAsWritten, outcome) == Raised(TypeErrorMessage(TaskType))
  {
    var call := AnalysisCallAsWritten;
    assert call[1..][1..][1..][1..] == [TaskType];
    assert UnexpectedKeyword(GenerateParameters, call[1..][1..][1..][1..]) == Some(TaskType);
  }

  /** Without `task_type` the call binds, and the caller sees the collaborator's own answer. */
  lemma CorrectedCallPassesThrough(outcome: LlmOutcome)
    ensures CallGenerate(GenerateCall, outcome) == outcome
  {
    assert forall k :: 0 <= k < |GenerateCall| ==> GenerateCall[k] in GenerateParameters;
  }

  // ---------------------------------------------------------------------
  // The legacy worker's `start_analysis_job(self, stock_id)`
  // (backend/services/analysis_worker.py:29-44)
  // ---------------------------------------------------------------------

  /** One argument of a Python call, as its printed value. */
  datatype Argument = Positional(value: string) | Named(name: string, value: string)

  /** What a call of `AnalysisWorker.start_analysis_job` produced: the job name, or the exception's text. */
  datatype StartOutcome = Started(jobId: string) | StartRaised(message: string)

  function PositionalCount(args: seq<Argument>): (n: nat)
    ensures n <= |args|
  {
    if args == [] then 0 else (if args[0].Positional? then 1 else 0) + PositionalCount(args[1..])
  }

  /** The first keyword other than `stock_id`, the only parameter after self. */
  function UnexpectedName(args: seq<Argument>): (r: Option<string>)
    ensures r.None? <==> forall k :: 0 <= k < |args| && args[k].Named? ==> args[k].name == "stock_id"
  {
    if args == [] then None
    else if args[0].Named? && args[0].name != "stock_id" then Some(args[0].name)
    else UnexpectedName(args[1..])
  }

  /**
   * Python's binding of the arguments to `(self, stock_id)`: an undeclared
   * keyword, more than one positional argument, `stock_id` given twice or
   * not at all each raise TypeError; otherwise the value bound to `stock_id`.
   */
  function BindStockId(args: seq<Argument>): (r: Result<string>)
    ensures r.Ok? ==> |args| == 1 && (args[0].Positional? || args[0].name == "stock_id") && r.value == args[0].value
    ensures |args| == 1 && args[0].Positional? ==> r == Ok(args[0].value)
  {
    var unexpected := UnexpectedName(args);
    var positional := PositionalCount(args);
    if unexpected.Some? then
      Err("AnalysisWorker.start_analysis_job() got an unexpected keyword argument '" + unexpected.value + "'")
    else if positional > 1 then
      Err("AnalysisWorker.start_analysis_job() takes 2 positional arguments but " + Text.IntToString(positional + 1) + " were given")
    else if |args| - positional > 0 && positional == 1 then
      Err("AnalysisWorker.start_analysis_job() got multiple values for argument 'stock_id'")
    else if |args| == 0 then
      Err("AnalysisWorker.start_analysis_job() missing 1 required positional argument: 'stock_id'")
    else
      NamedOnce(args, positional)
  }

  /** Binding when every keyword is `stock_id` and no positional argument competes with it. */
  function NamedOnce(args: seq<Argument>, positional: nat): (r: Result<string>)
    requires args != [] && positional == PositionalCount(args) && positional <= 1
    requires forall k :: 0 <= k < |args| && args[k].Named? ==> args[k].name == "stock_id"
    requires positional == 1 ==> |args| == 1
    ensures r.Ok? ==> |args| == 1 && (args[0].Positional? || args[0].name == "stock_id") && r.value == args[0].value
    ensures |args| == 1 ==> r == Ok(args[0].value)
  {
    if |args| == 1 then Ok(args[0].value)
    else Err("AnalysisWorker.start_analysis_job() got multiple values for argument 'stock_id'")
  }

  /** The job name `job_<stock_id>_<int(time.time())>` the call returns once its thread is started. */
  function JobName(stockId: string, now: int): string {
    "job_" + stockId + "_" + Text.IntToString(now)
  }

  /** Calling `start_analysis_job` at clock `now`: the binding decides, the thread it starts is not modelled. */
  function StartAnalysisJob(args: seq<Argument>, now: int): (r: StartOutcome)
    ensures BindStockId(args).Err? <==> r.StartRaised?
    ensures BindStockId(args).Ok? ==> r == Started(JobName(BindStockId(args).value, now))
  {
    match BindStockId(args)
    case Ok(stockId) => Started(JobName(stockId, now))
    case Err(message) => StartRaised(message)
  }

  /** The legacy poller's auto-analysis call (backend/services/scheduler_service.py:122, :149). */
  function AutoAnalysisCallAsWritten(stockId: int, quarter: string, year: int): (args: seq<Argument>)
    ensures PositionalCount(args) == 3 && UnexpectedName(args).None?
    ensures BindStockId(args).Err?
  {
    var args := [Positional(Text.IntToString(stockId)), Positional(quarter), Positional(Text.IntToString(year))];
    assert PositionalCount(args[1..][1..][1..]) == 0;
    assert PositionalCount(args[1..][1..]) == 1;
    assert PositionalCount(args[1..]) == 2;
    args
  }

  /** The manual trigger's call (backend/app.py:1315). */
  function TriggerCallAsWritten(stockId: int, quarter: string, year: string, force: string): (args: seq<Argument>)
    ensures UnexpectedName(args) == Some("quarter")
    ensures BindStockId(args).Err?
  {
    var args := [Positional(Text.IntToString(stockId)), Named("quarter", quarter), Named("year", year), Named("force", force)];
    assert UnexpectedName(args[1..]) == Some("quarter");
    args
  }

  /** Both calls with the one argument the worker declares. */
  function StartCall(stockId: int): (args: seq<Argument>)
    ensures BindStockId(args) == Ok(Text.IntToString(stockId))
  {
    [Positional(Text.IntToString(stockId))]
  }

  /** As written, the auto-analysis call passes three positional arguments and always raises TypeError. */
  lemma AutoAnalysisCallAlwaysRaises(stockId: int, quarter: string, year: int, now: int)
    ensures StartAnalysisJob(AutoAnalysisCallAsWritten(stockId, quarter, year), now).StartRaised?
  {
  }

  /** As written, the manual trigger's call passes the undeclared keyword `quarter` and always raises TypeError. */
  lemma TriggerCallAlwaysRaises(stockId: int, quarter: string, year: string, force: string, now: int)
    ensures StartAnalysisJob(TriggerCallAsWritten(stockId, quarter, year, force), now).StartRaised?
  {
  }

  /** The one-argument call binds and returns the job name for that stock. */
  lemma StartCallStarts(stockId: int, now: int)
    ensures StartAnalysisJob(StartCall(stockId), now) == Started(JobName(Text.IntToString(stockId), now))
  {
  }
}
