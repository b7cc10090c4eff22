/**
 * The one-off defaults update over llm_models (scripts/update_defaults.py):
 * three UPDATE statements, each filling one user setting from the model's
 * own limits where the setting is NULL or 0, committed together or rolled
 * back together.
 */
module UpdateDefaults {
  import opened Wrappers
  import opened LlmService

  /** `x IS NULL OR x = 0`. */
  predicate Unset(v: Option<int>) {
    v.None? || v == Some(0)
  }

  /** The WHERE of the first UPDATE. */
  predicate MatchesMaxTokens(row: ModelRow) {
    Unset(row.userMaxTokens) && row.maxOutputTokens.Some?
  }

  /** The WHERE of the second UPDATE. */
  predicate MatchesThinking(row: ModelRow) {
    row.supportsThinking && Unset(row.userThinkingEnabled)
  }

  /** The WHERE of the third UPDATE. */
  predicate MatchesBudget(row: ModelRow) {
    row.supportsThinking && Unset(row.userThinkingBudget) && row.maxOutputTokens.Some?
  }

  /** First UPDATE on one row: `user_max_tokens = max_output_tokens` where matched. */
  function MaxTokensStage(row: ModelRow): (r: ModelRow)
    ensures r.(userMaxTokens := row.userMaxTokens) == row
    ensures MatchesMaxTokens(row) ==> r.userMaxTokens == row.maxOutputTokens && r.userMaxTokens.Some?
    ensures !MatchesMaxTokens(row) ==> r == row
  {
    if MatchesMaxTokens(row) then row.(userMaxTokens := row.maxOutputTokens) else row
  }

  /** Second UPDATE on one row: `user_thinking_enabled = 1` where matched. */
  function ThinkingStage(row: ModelRow): (r: ModelRow)
    ensures r.(userThinkingEnabled := row.userThinkingEnabled) == row
    ensures MatchesThinking(row) ==> r.userThinkingEnabled == Some(1)
    ensures !MatchesThinking(row) ==> r == row
  {
    if MatchesThinking(row) then row.(userThinkingEnabled := Some(1)) else row
  }

  /** Third UPDATE on one row: `user_thinking_budget = max_output_tokens` where matched. */
  function BudgetStage(row: ModelRow): (r: ModelRow)
    ensures r.(userThinkingBudget := row.userThinkingBudget) == row
    ensures MatchesBudget(row) ==> r.userThinkingBudget == row.maxOutputTokens && r.userThinkingBudget.Some?
    ensures !MatchesBudget(row) ==> r == row
  {
    if MatchesBudget(row) then row.(userThinkingBudget := row.maxOutputTokens) else row
  }

  /** The three UPDATEs in order, on one row. */
  function Defaults(row: ModelRow): ModelRow {
    BudgetStage(ThinkingStage(MaxTokensStage(row)))
  }

  /** One statement applied to every row of the table. */
  function Apply(models: map<int, ModelRow>, stage: ModelRow -> ModelRow): (r: map<int, ModelRow>)
    ensures r.Keys == models.Keys
    ensures forall id :: id in r ==> r[id] == stage(models[id])
  {
    map id | id in models :: stage(models[id])
  }

  /** `cursor.rowcount` of an UPDATE: the rows its WHERE matched. */
  function Matched(models: map<int, ModelRow>, p: ModelRow -> bool): (n: nat)
    ensures n <= |models|
  {
    var ids := set id | id in models && p(models[id]);
    assert ids <= models.Keys;
    SubsetCard(ids, models.Keys);
    |ids|
  }

  lemma SubsetCard(a: set<int>, b: set<int>)
    requires a <= b
    ensures |a| <= |b|
  {
    assert b == a + (b - a);
  }

  /**
   * What one run changes in a row: each setting either stays or is filled
   * exactly as its UPDATE says, and nothing else about the row moves.
   */
  lemma DefaultsFill(row: ModelRow)
    ensures var r := Defaults(row);
      r.(userMaxTokens := row.userMaxTokens, userThinkingEnabled := row.userThinkingEnabled,
         userThinkingBudget := row.userThinkingBudget) == row
      && r.userMaxTokens == (if MatchesMaxTokens(row) then row.maxOutputTokens else row.userMaxTokens)
      && r.userThinkingEnabled == (if MatchesThinking(row) then Some(1) else row.userThinkingEnabled)
      && r.userThinkingBudget == (if MatchesBudget(row) then row.maxOutputTokens else row.userThinkingBudget)
  {
    var a := MaxTokensStage(row);
    var b := ThinkingStage(a);
    assert MatchesThinking(a) == MatchesThinking(row);
    assert MatchesBudget(b) == MatchesBudget(row);
  }

  /** After one run, every model that supports thinking has it switched on. */
  lemma ThinkingOnAfterRun(row: ModelRow)
    requires row.supportsThinking
    ensures Defaults(row).userThinkingEnabled.Some? && Defaults(row).userThinkingEnabled != Some(0)
  {
    DefaultsFill(row);
  }

  /** A second run changes nothing. */
  lemma {:induction false} DefaultsIdempotent(row: ModelRow)
    ensures Defaults(Defaults(row)) == Defaults(row)
  {
    var once := Defaults(row);
    DefaultsFill(row);
    DefaultsFill(once);
  }

  /**
   * A second run matches no rows, as long as no model reports a maximum of
   * 0 output tokens (such a row is matched again, and rewritten with the
   * same 0).
   */
  lemma {:induction false} SecondRunMatchesNothing(row: ModelRow)
    requires row.maxOutputTokens != Some(0)
    ensures var once := Defaults(row);
      !MatchesMaxTokens(once) && !MatchesThinking(once) && !MatchesBudget(once)
  {
    DefaultsFill(row);
  }

  /** The exception: with a reported maximum of 0 the first UPDATE matches the row on every run. */
  lemma {:induction false} ZeroMaximumMatchedAgain(row: ModelRow)
    requires row.maxOutputTokens == Some(0) && Unset(row.userMaxTokens)
    ensures MatchesMaxTokens(Defaults(row)) && Defaults(Defaults(row)) == Defaults(row)
  {
    DefaultsFill(row);
    DefaultsIdempotent(row);
  }

  /** Over the whole table: running the script twice leaves what one run left. */
  lemma {:induction false} TableIdempotent(models: map<int, ModelRow>)
    ensures var once := Apply(models, Defaults); Apply(once, Defaults) == once
  {
    var once := Apply(models, Defaults);
    forall id | id in once
      ensures Defaults(once[id]) == once[id]
    {
      DefaultsIdempotent(models[id]);
    }
  }

  /** The three statements one after another are the per-row `Defaults` over the table. */
  lemma StagesCompose(models: map<int, ModelRow>)
    ensures Apply(Apply(Apply(models, MaxTokensStage), ThinkingStage), BudgetStage) == Apply(models, Defaults)
  {
  }

  /** The llm_models table of the database the script opens. */
  class ModelTable {
    var models: map<int, ModelRow>

    constructor(models: map<int, ModelRow>)
      ensures this.models == models
    {
      this.models := models;
    }

    /**
     * `update_database_defaults`: the three UPDATEs in one transaction,
     * returning their row counts. `failsAt` names the step that raises
     * (0, 1, 2 the statements, 3 the commit), if any: the transaction is
     * rolled back and the table is as it was.
     */
    method UpdateDatabaseDefaults(failsAt: Option<nat>) returns (r: Result<seq<nat>>)
      modifies this`models
      ensures failsAt.Some? && failsAt.value <= 3 ==> r.Err? && models == old(models)
      ensures !(failsAt.Some? && failsAt.value <= 3) ==>
        && models == Apply(old(models), Defaults)
        && r == Ok([Matched(old(models), MatchesMaxTokens),
                    Matched(Apply(old(models), MaxTokensStage), MatchesThinking),
                    Matched(Apply(Apply(old(models), MaxTokensStage), ThinkingStage), MatchesBudget)])
    {
      if failsAt == Some(0) {
        return Err("Error updating database");
      }
      var pending := Apply(models, MaxTokensStage);
      var maxCount := Matched(models, MatchesMaxTokens);
      if failsAt == Some(1) {
        return Err("Error updating database");
      }
      var thinkingCount := Matched(pending, MatchesThinking);
      pending := Apply(pending, ThinkingStage);
      if failsAt == Some(2) {
        return Err("Error updating database");
      }
      var budgetCount := Matched(pending, MatchesBudget);
      pending := Apply(pending, BudgetStage);
      if failsAt == Some(3) {
        return Err("Error updating database");
      }
      StagesCompose(models);
      models := pending;
      r := Ok([maxCount, thinkingCount, budgetCount]);
    }
  }
}
