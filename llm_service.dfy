/**
 * The LLM front door (backend/services/llm/llm_service.py): the provider
 * cache, the resolution of the model and of the effective generation
 * parameters in `generate`, the catalogue upsert of `sync_models`, the API
 * key update that evicts a cached provider, and `update_model_config`.
 * The provider SDK calls themselves (`generate`, `list_models`) are foreign:
 * the model produces the request handed to the SDK, and the listed models
 * are a parameter.
 */
module LlmService {
  import opened Wrappers
  import Text
  import Store

  /** The four SDK wrappers `_get_provider` knows. */
  datatype ProviderKind = GoogleAi | OpenAi | Anthropic | OpenRouter

  /** A provider instance: which wrapper, built with which key. */
  datatype Provider = Provider(kind: ProviderKind, apiKey: string)

  /** The name dispatch of `_get_provider`; any other name has no wrapper. */
  function KindOf(name: string): (k: Option<ProviderKind>)
    ensures k.Some? <==> name == "google_ai" || name == "openai" || name == "anthropic" || name == "openrouter"
    ensures k == Some(GoogleAi) <==> name == "google_ai"
    ensures k == Some(OpenAi) <==> name == "openai"
    ensures k == Some(Anthropic) <==> name == "anthropic"
    ensures k == Some(OpenRouter) <==> name == "openrouter"
  {
    if name == "google_ai" then Some(GoogleAi)
    else if name == "openai" then Some(OpenAi)
    else if name == "anthropic" then Some(Anthropic)
    else if name == "openrouter" then Some(OpenRouter)
    else None
  }

  /** A row of llm_providers (display name and timestamps aside), in rowid order. */
  datatype ProviderRow = ProviderRow(id: int, name: string, apiKey: Option<string>, active: bool)

  /** A row of llm_models; prices and `last_synced` are left out. */
  datatype ModelRow = ModelRow(providerId: int, modelId: string, displayName: string,
                               supportsThinking: bool, contextWindow: Option<int>,
                               maxOutputTokens: Option<int>, active: bool,
                               userMaxTokens: Option<int>, userThinkingEnabled: Option<int>,
                               userThinkingBudget: Option<int>)

  /** The `default_model_id` row of llm_settings: missing, an integer, or text `int()` rejects. */
  datatype DefaultSetting = NoDefault | DefaultId(id: int) | NotAnInteger

  /** The first row satisfying `p`: what `fetchone()` returns. */
  function FirstRow(ps: seq<ProviderRow>, p: ProviderRow -> bool): (r: Option<nat>)
    ensures r.Some? ==> r.value < |ps| && p(ps[r.value]) && forall j :: 0 <= j < r.value ==> !p(ps[j])
    ensures r.None? ==> forall j :: 0 <= j < |ps| ==> !p(ps[j])
  {
    if ps == [] then None
    else if p(ps[0]) then Some(0)
    else match FirstRow(ps[1..], p)
      case None => None
      case Some(j) => Some(j + 1)
  }

  // ---------------------------------------------------------------------
  // Provider construction and the cache
  // ---------------------------------------------------------------------

  /** The WHERE of the key lookup: that name, and active. */
  function ActiveNamed(name: string): ProviderRow -> bool {
    (row: ProviderRow) => row.name == name && row.active
  }

  /** The WHERE of the provider-id lookup in `sync_models`. */
  function Named(name: string): ProviderRow -> bool {
    (row: ProviderRow) => row.name == name
  }

  /**
   * A cache miss of `_get_provider`: the key of the active row with that
   * name; no row, a NULL or empty key, or an unknown name give no provider.
   */
  function Fresh(ps: seq<ProviderRow>, name: string): (r: Option<Provider>)
    ensures r.Some? <==>
      var i := FirstRow(ps, ActiveNamed(name));
      i.Some? && ps[i.value].apiKey.Some? && ps[i.value].apiKey.value != "" && KindOf(name).Some?
    ensures r.Some? ==>
      var i := FirstRow(ps, ActiveNamed(name));
      r.value == Provider(KindOf(name).value, ps[i.value].apiKey.value)
  {
    var i := FirstRow(ps, ActiveNamed(name));
    if i.None? || ps[i.value].apiKey.None? || ps[i.value].apiKey.value == "" then None
    else match KindOf(name)
      case None => None
      case Some(k) => Some(Provider(k, ps[i.value].apiKey.value))
  }

  /** What `_get_provider` returns: the cached instance, else a fresh one. */
  function Resolved(cache: map<string, Provider>, ps: seq<ProviderRow>, name: string): Option<Provider> {
    if name in cache then Some(cache[name]) else Fresh(ps, name)
  }

  /** The cache after `_get_provider`: a fresh instance is remembered, a failure is not. */
  function CacheAfter(cache: map<string, Provider>, ps: seq<ProviderRow>, name: string): (c: map<string, Provider>)
    ensures Resolved(cache, ps, name).Some? ==> name in c && c[name] == Resolved(cache, ps, name).value
    ensures Resolved(cache, ps, name).None? ==> c == cache
    ensures forall n :: n != name ==> (n in c <==> n in cache) && (n in c ==> c[n] == cache[n])
  {
    if name in cache then cache
    else match Fresh(ps, name)
      case None => cache
      case Some(p) => cache[name := p]
  }

  /**
   * Once built, a provider is served from the cache: a later lookup returns
   * the same instance whatever the provider table says by then.
   */
  lemma CachedProviderSticks(cache: map<string, Provider>, ps: seq<ProviderRow>, later: seq<ProviderRow>, name: string)
    requires Resolved(cache, ps, name).Some?
    ensures Resolved(CacheAfter(cache, ps, name), later, name) == Resolved(cache, ps, name)
  {
  }

  /** The UPDATE of `set_api_key`: every row with that name gets the key. */
  function SetKey(ps: seq<ProviderRow>, name: string, key: string): (r: seq<ProviderRow>)
    ensures |r| == |ps|
    ensures forall i :: 0 <= i < |ps| && ps[i].name == name ==> r[i] == ps[i].(apiKey := Some(key))
    ensures forall i :: 0 <= i < |ps| && ps[i].name != name ==> r[i] == ps[i]
  {
    seq(|ps|, i requires 0 <= i < |ps| => if ps[i].name == name then ps[i].(apiKey := Some(key)) else ps[i])
  }

  /**
   * After `set_api_key` evicts the entry, the next lookup builds a provider
   * with the new key, provided the row is active, the key is non-empty and
   * the name has a wrapper; otherwise it yields none.
   */
  lemma {:induction false} NewKeyIsUsed(cache: map<string, Provider>, ps: seq<ProviderRow>, name: string, key: string)
    ensures var r := Resolved(map n | n in cache && n != name :: cache[n], SetKey(ps, name, key), name);
      (r.Some? <==> FirstRow(ps, ActiveNamed(name)).Some? && key != "" && KindOf(name).Some?)
      && (r.Some? ==> r.value == Provider(KindOf(name).value, key))
  {
    var p := ActiveNamed(name);
    var ps' := SetKey(ps, name, key);
    FirstRowAfterSetKey(ps, name, key);
    var i := FirstRow(ps, p);
    if i.Some? {
      assert ps'[i.value].apiKey == Some(key);
    }
  }

  /** Setting a key does not change which row a name-and-active lookup finds. */
  lemma {:induction false} FirstRowAfterSetKey(ps: seq<ProviderRow>, name: string, key: string)
    ensures FirstRow(SetKey(ps, name, key), ActiveNamed(name))
         == FirstRow(ps, ActiveNamed(name))
  {
    var p := ActiveNamed(name);
    var ps' := SetKey(ps, name, key);
    assert forall j :: 0 <= j < |ps| ==> (p(ps'[j]) <==> p(ps[j]));
  }

  // ---------------------------------------------------------------------
  // The effective generation parameters
  // ---------------------------------------------------------------------

  datatype Effective = Effective(thinking: bool, budget: int, maxTokens: int)

  /**
   * Thinking is on when the call asks for it or the stored preference is 1;
   * the budget is the stored one (the call's own budget is ignored), 0 when
   * NULL; the token limit is the stored override, else the requested limit
   * capped by the model's maximum output when that is known.
   */
  function EffectiveParams(row: ModelRow, thinkingMode: bool, maxTokens: int): (e: Effective)
    ensures e.thinking <==> thinkingMode || row.userThinkingEnabled == Some(1)
    ensures row.userThinkingBudget.Some? ==> e.budget == row.userThinkingBudget.value
    ensures row.userThinkingBudget.None? ==> e.budget == 0
    ensures row.userMaxTokens.Some? ==> e.maxTokens == row.userMaxTokens.value
    ensures row.userMaxTokens.None? ==> e.maxTokens <= maxTokens
    ensures row.userMaxTokens.None? && row.maxOutputTokens.Some? ==>
      e.maxTokens <= row.maxOutputTokens.value
      && (e.maxTokens == maxTokens || e.maxTokens == row.maxOutputTokens.value)
    ensures row.userMaxTokens.None? && row.maxOutputTokens.None? ==> e.maxTokens == maxTokens
  {
    var budget := if row.userThinkingBudget.Some? then row.userThinkingBudget.value else 0;
    var limit :=
      if row.userMaxTokens.Some? then row.userMaxTokens.value
      else
        var cap := if row.maxOutputTokens.Some? then row.maxOutputTokens.value else maxTokens;
        if cap < maxTokens then cap else maxTokens;
    Effective(thinkingMode || row.userThinkingEnabled == Some(1), budget, limit)
  }

  /** The call `generate` makes on the provider SDK. */
  datatype Request = Request(provider: Provider, modelId: string, thinking: bool, budget: int, maxTokens: int)

  /** The model id `generate` works with: the argument, else the configured default. */
  function ChooseModel(setting: DefaultSetting, modelId: Option<int>): (r: Result<int>)
    ensures modelId.Some? ==> r == Ok(modelId.value)
    ensures modelId.None? && setting.DefaultId? ==> r == Ok(setting.id)
    ensures modelId.None? && setting.NoDefault? ==> r == Err("No default model configured")
    ensures modelId.None? && setting.NotAnInteger? ==> r.Err?
  {
    if modelId.Some? then Ok(modelId.value)
    else match setting
      case NoDefault => Err("No default model configured")
      case DefaultId(id) => Ok(id)
      case NotAnInteger => Err("invalid literal for int()")
  }

  /**
   * The model query of `generate`: the active model with that id joined to
   * its provider row, giving the row and the provider's name.
   */
  function Target(ps: seq<ProviderRow>, models: map<int, ModelRow>, setting: DefaultSetting, modelId: Option<int>)
    : (r: Result<(ModelRow, string)>)
    ensures r.Ok? ==> ChooseModel(setting, modelId).Ok? && var id := ChooseModel(setting, modelId).value;
      id in models && models[id].active && r.value.0 == models[id]
      && exists j :: 0 <= j < |ps| && ps[j].id == models[id].providerId && ps[j].name == r.value.1
    ensures ChooseModel(setting, modelId).Ok? ==> var id := ChooseModel(setting, modelId).value;
      (id !in models || !models[id].active) ==> r == Err("Model " + Text.IntToString(id) + " not found or inactive")
  {
    match ChooseModel(setting, modelId)
    case Err(e) => Err(e)
    case Ok(id) =>
      if id !in models || !models[id].active then Err("Model " + Text.IntToString(id) + " not found or inactive")
      else match FirstRow(ps, (row: ProviderRow) => row.id == models[id].providerId)
        case None => Err("Model " + Text.IntToString(id) + " not found or inactive")
        case Some(j) => Ok((models[id], ps[j].name))
  }

  /**
   * `generate` up to the SDK call: the request it sends, or the exception
   * it raises for a missing default, a missing or inactive model, or a
   * provider that cannot be built.
   */
  function Plan(cache: map<string, Provider>, ps: seq<ProviderRow>, models: map<int, ModelRow>,
                setting: DefaultSetting, modelId: Option<int>, thinkingMode: bool, maxTokens: int): (r: Result<Request>)
    ensures Target(ps, models, setting, modelId).Err? ==> r == Err(Target(ps, models, setting, modelId).error)
    ensures Target(ps, models, setting, modelId).Ok? ==>
      var (row, name) := Target(ps, models, setting, modelId).value;
      (r.Err? <==> Resolved(cache, ps, name).None?)
      && (r.Err? ==> r.error == "Provider " + name + " not configured")
      && (r.Ok? ==> r.value.provider == Resolved(cache, ps, name).value && r.value.modelId == row.modelId)
  {
    match Target(ps, models, setting, modelId)
    case Err(e) => Err(e)
    case Ok((row, name)) =>
      match Resolved(cache, ps, name)
      case None => Err("Provider " + name + " not configured")
      case Some(p) =>
        var e := EffectiveParams(row, thinkingMode, maxTokens);
        Ok(Request(p, row.modelId, e.thinking, e.budget, e.maxTokens))
  }

  /**
   * A request that reaches the SDK names an active model and carries the
   * effective parameters; without a stored override its token limit never
   * exceeds the one asked for.
   */
  lemma PlanUsesEffectiveParams(cache: map<string, Provider>, ps: seq<ProviderRow>, models: map<int, ModelRow>,
                                setting: DefaultSetting, modelId: Option<int>, thinkingMode: bool, maxTokens: int)
    requires Plan(cache, ps, models, setting, modelId, thinkingMode, maxTokens).Ok?
    ensures var id := ChooseModel(setting, modelId).value;
      var r := Plan(cache, ps, models, setting, modelId, thinkingMode, maxTokens).value;
      id in models && models[id].active
      && r.modelId == models[id].modelId
      && (r.thinking <==> thinkingMode || models[id].userThinkingEnabled == Some(1))
      && (models[id].userMaxTokens.None? ==> r.maxTokens <= maxTokens)
  {
  }

  // ---------------------------------------------------------------------
  // The model catalogue and `sync_models`
  // ---------------------------------------------------------------------

  /** What a provider's `list_models` reports about one model (prices aside). */
  datatype ModelInfo = ModelInfo(modelId: string, displayName: string, supportsThinking: bool,
                                 contextWindow: Option<int>, maxOutputTokens: Option<int>)

  /** `p in s`, for strings: a scan from the left. */
  function Contains(s: string, p: string): bool
    decreases |s|
  {
    if |s| < |p| then false
    else if s[..|p|] == p then true
    else Contains(s[1..], p)
  }

  /** The scan finds `p` exactly when it occurs somewhere in `s`. */
  lemma {:induction false} ContainsIffOccurs(s: string, p: string)
    ensures Contains(s, p) <==> exists k :: Text.OccursAt(s, p, k)
    decreases |s|
  {
    if |s| < |p| {
      assert forall k :: !Text.OccursAt(s, p, k);
    } else if s[..|p|] == p {
      assert Text.OccursAt(s, p, 0);
    } else {
      ContainsIffOccurs(s[1..], p);
      if Contains(s[1..], p) {
        var k :| Text.OccursAt(s[1..], p, k);
        assert s[k + 1..k + 1 + |p|] == s[1..][k..k + |p|];
        assert Text.OccursAt(s, p, k + 1);
      } else {
        forall k | Text.OccursAt(s, p, k)
          ensures false
        {
          assert k != 0;
          assert s[1..][k - 1..k - 1 + |p|] == s[k..k + |p|];
          assert Text.OccursAt(s[1..], p, k - 1);
        }
      }
    }
  }

  /**
   * The row a first sync inserts: the user limit starts at the model's
   * maximum output, thinking is on only for thinking models whose id
   * contains "o1", and the budget is the maximum output for thinking models
   * and 0 otherwise.
   */
  function NewModel(providerId: int, info: ModelInfo): (row: ModelRow)
    ensures row.providerId == providerId && row.modelId == info.modelId && row.active
    ensures row.userMaxTokens == info.maxOutputTokens
    ensures row.userThinkingEnabled == Some(1) <==> info.supportsThinking && Contains(Text.Lower(info.modelId), "o1")
    ensures row.userThinkingEnabled == Some(0) <==> !(info.supportsThinking && Contains(Text.Lower(info.modelId), "o1"))
    ensures info.supportsThinking ==> row.userThinkingBudget == info.maxOutputTokens
    ensures !info.supportsThinking ==> row.userThinkingBudget == Some(0)
  {
    ModelRow(providerId, info.modelId, info.displayName, info.supportsThinking, info.contextWindow,
             info.maxOutputTokens, true, info.maxOutputTokens,
             Some(if info.supportsThinking && Contains(Text.Lower(info.modelId), "o1") then 1 else 0),
             if info.supportsThinking then info.maxOutputTokens else Some(0))
  }

  /** The ON CONFLICT branch: the catalogue columns are refreshed, the user's settings kept. */
  function Refreshed(row: ModelRow, info: ModelInfo): ModelRow {
    row.(displayName := info.displayName, supportsThinking := info.supportsThinking,
         contextWindow := info.contextWindow, maxOutputTokens := info.maxOutputTokens)
  }

  /** The columns a user sets, and the active flag, which a sync never touches. */
  function UserPart(row: ModelRow): (Option<int>, Option<int>, Option<int>, bool) {
    (row.userMaxTokens, row.userThinkingEnabled, row.userThinkingBudget, row.active)
  }

  /** llm_models with its next rowid. */
  datatype Catalogue = Catalogue(models: map<int, ModelRow>, nextId: int)

  /** Rowids below the counter, and the UNIQUE(provider_id, model_id) constraint. */
  predicate CatalogueValid(c: Catalogue) {
    c.nextId >= 1
    && (forall i :: i in c.models ==> 1 <= i < c.nextId)
    && (forall i, j ::
          (i in c.models && j in c.models && SameModel(c.models[i], c.models[j].providerId, c.models[j].modelId)) ==> i == j)
  }

  /** The conflict key of llm_models. */
  predicate SameModel(row: ModelRow, providerId: int, modelId: string) {
    row.providerId == providerId && row.modelId == modelId
  }

  predicate HasModel(c: Catalogue, providerId: int, modelId: string) {
    exists i :: i in c.models && SameModel(c.models[i], providerId, modelId)
  }

  /** The conflict target of the upsert: the row with that key, if any. */
  function MatchId(c: Catalogue, providerId: int, modelId: string): Option<int> {
    Store.FirstMatch(1, c.nextId, KeyAt(c, providerId, modelId))
  }

  /** The WHERE of the conflict check, as a test on rowids. */
  function KeyAt(c: Catalogue, providerId: int, modelId: string): int -> bool {
    i => i in c.models && SameModel(c.models[i], providerId, modelId)
  }

  /** In a valid catalogue the conflict target is found exactly when the key is present. */
  lemma MatchIdFinds(c: Catalogue, providerId: int, modelId: string)
    requires CatalogueValid(c)
    ensures MatchId(c, providerId, modelId).Some? <==> HasModel(c, providerId, modelId)
    ensures MatchId(c, providerId, modelId).Some? ==>
      MatchId(c, providerId, modelId).value in c.models
      && SameModel(c.models[MatchId(c, providerId, modelId).value], providerId, modelId)
  {
    if HasModel(c, providerId, modelId) {
      var i :| i in c.models && SameModel(c.models[i], providerId, modelId);
      assert KeyAt(c, providerId, modelId)(i);
    }
  }

  /**
   * One INSERT ... ON CONFLICT(provider_id, model_id) DO UPDATE: a listed
   * model that is new gets a row with the defaults at the next rowid; one
   * already known has its catalogue columns refreshed and its user settings
   * left alone; every other row stays as it was.
   */
  function Upsert(c: Catalogue, providerId: int, info: ModelInfo): (r: Catalogue)
    requires CatalogueValid(c)
    ensures CatalogueValid(r) && HasModel(r, providerId, info.modelId)
    ensures HasModel(c, providerId, info.modelId) ==>
      r.nextId == c.nextId && r.models.Keys == c.models.Keys
      && forall i :: i in c.models && SameModel(c.models[i], providerId, info.modelId) ==> r.models[i] == Refreshed(c.models[i], info)
    ensures !HasModel(c, providerId, info.modelId) ==>
      r.nextId == c.nextId + 1 && r.models == c.models[c.nextId := NewModel(providerId, info)]
    ensures forall i :: i in c.models ==>
              i in r.models && SameModel(r.models[i], c.models[i].providerId, c.models[i].modelId)
              && UserPart(r.models[i]) == UserPart(c.models[i])
    ensures forall i :: i in c.models && !SameModel(c.models[i], providerId, info.modelId) ==> r.models[i] == c.models[i]
  {
    MatchIdFinds(c, providerId, info.modelId);
    match MatchId(c, providerId, info.modelId)
    case Some(i) =>
      var r := Catalogue(c.models[i := Refreshed(c.models[i], info)], c.nextId);
      assert SameModel(r.models[i], providerId, info.modelId);
      r
    case None =>
      var r := Catalogue(c.models[c.nextId := NewModel(providerId, info)], c.nextId + 1);
      assert SameModel(r.models[c.nextId], providerId, info.modelId);
      r
  }

  /** The upsert loop of `sync_models` over the listed models, in order. */
  function SyncAll(c: Catalogue, providerId: int, listed: seq<ModelInfo>): (r: Catalogue)
    requires CatalogueValid(c)
    ensures CatalogueValid(r)
  {
    if listed == [] then c else Upsert(SyncAll(c, providerId, listed[..|listed| - 1]), providerId, listed[|listed| - 1])
  }

  /**
   * After a sync every listed model has a row for that provider, every row
   * that existed keeps its key and its user settings, and the rows of other
   * providers are untouched.
   */
  lemma {:induction false} SyncedAll(c: Catalogue, providerId: int, listed: seq<ModelInfo>)
    requires CatalogueValid(c)
    ensures forall j :: 0 <= j < |listed| ==> HasModel(SyncAll(c, providerId, listed), providerId, listed[j].modelId)
    ensures forall i :: i in c.models ==>
              i in SyncAll(c, providerId, listed).models
              && SameModel(SyncAll(c, providerId, listed).models[i], c.models[i].providerId, c.models[i].modelId)
              && UserPart(SyncAll(c, providerId, listed).models[i]) == UserPart(c.models[i])
    ensures forall i :: i in c.models && c.models[i].providerId != providerId ==>
              SyncAll(c, providerId, listed).models[i] == c.models[i]
  {
    if listed != [] {
      var front := listed[..|listed| - 1];
      SyncedAll(c, providerId, front);
      var s := SyncAll(c, providerId, front);
      var r := Upsert(s, providerId, listed[|listed| - 1]);
      forall j | 0 <= j < |listed|
        ensures HasModel(r, providerId, listed[j].modelId)
      {
        if j < |listed| - 1 {
          assert listed[j] == front[j];
          var i :| i in s.models && SameModel(s.models[i], providerId, listed[j].modelId);
          assert i in r.models && SameModel(r.models[i], providerId, listed[j].modelId);
        }
      }
    }
  }

  /** Syncing models that all have rows already adds no row and leaves the counter alone. */
  lemma {:induction false} ResyncAddsNothing(c: Catalogue, providerId: int, again: seq<ModelInfo>)
    requires CatalogueValid(c)
    requires forall j :: 0 <= j < |again| ==> HasModel(c, providerId, again[j].modelId)
    ensures SyncAll(c, providerId, again).models.Keys == c.models.Keys
    ensures SyncAll(c, providerId, again).nextId == c.nextId
  {
    if again != [] {
      var front := again[..|again| - 1];
      assert forall j :: 0 <= j < |front| ==> front[j] == again[j];
      ResyncAddsNothing(c, providerId, front);
      SyncedAll(c, providerId, front);
      var s := SyncAll(c, providerId, front);
      var info := again[|again| - 1];
      var i :| i in c.models && SameModel(c.models[i], providerId, info.modelId);
      assert i in s.models && SameModel(s.models[i], providerId, info.modelId);
    }
  }

  // ---------------------------------------------------------------------
  // `update_model_config`
  // ---------------------------------------------------------------------

  /**
   * The configuration dictionary: each key is absent (`None`) or present
   * with a value that may be JSON null (`Some(None)`).
   */
  datatype ModelConfig = ModelConfig(userMaxTokens: Option<Option<int>>, userThinkingEnabled: Option<Option<int>>,
                                     userThinkingBudget: Option<Option<int>>)

  /** The SET list the method builds, in its order. */
  function ConfigFields(config: ModelConfig): (fields: seq<string>)
    ensures fields == [] <==> config.userMaxTokens.None? && config.userThinkingEnabled.None? && config.userThinkingBudget.None?
    ensures |fields| <= 3
  {
    (if config.userMaxTokens.Some? then ["user_max_tokens = ?"] else [])
    + (if config.userThinkingEnabled.Some? then ["user_thinking_enabled = ?"] else [])
    + (if config.userThinkingBudget.Some? then ["user_thinking_budget = ?"] else [])
  }

  /** The row after the UPDATE: each present key sets its column, nothing else changes. */
  function Configured(row: ModelRow, config: ModelConfig): (r: ModelRow)
    ensures config.userMaxTokens.Some? ==> r.userMaxTokens == config.userMaxTokens.value
    ensures config.userMaxTokens.None? ==> r.userMaxTokens == row.userMaxTokens
    ensures config.userThinkingEnabled.Some? ==> r.userThinkingEnabled == config.userThinkingEnabled.value
    ensures config.userThinkingEnabled.None? ==> r.userThinkingEnabled == row.userThinkingEnabled
    ensures config.userThinkingBudget.Some? ==> r.userThinkingBudget == config.userThinkingBudget.value
    ensures config.userThinkingBudget.None? ==> r.userThinkingBudget == row.userThinkingBudget
    ensures r.(userMaxTokens := row.userMaxTokens, userThinkingEnabled := row.userThinkingEnabled,
               userThinkingBudget := row.userThinkingBudget) == row
  {
    var r1 := if config.userMaxTokens.Some? then row.(userMaxTokens := config.userMaxTokens.value) else row;
    var r2 := if config.userThinkingEnabled.Some? then r1.(userThinkingEnabled := config.userThinkingEnabled.value) else r1;
    if config.userThinkingBudget.Some? then r2.(userThinkingBudget := config.userThinkingBudget.value) else r2
  }

  /** An empty configuration changes nothing. */
  lemma EmptyConfigChangesNothing(row: ModelRow)
    ensures Configured(row, ModelConfig(None, None, None)) == row
    ensures ConfigFields(ModelConfig(None, None, None)) == []
  {
  }

  /** Applying the same configuration twice is applying it once. */
  lemma ConfigureIdempotent(row: ModelRow, config: ModelConfig)
    ensures Configured(Configured(row, config), config) == Configured(row, config)
  {
  }

  // ---------------------------------------------------------------------
  // The tables and the service
  // ---------------------------------------------------------------------

  /** The LLM tables: llm_providers, llm_models and the default-model setting. */
  class LlmTables {
    var providers: seq<ProviderRow>
    var models: map<int, ModelRow>
    var nextModelId: int
    var defaultModel: DefaultSetting

    ghost predicate Valid()
      reads this
    {
      CatalogueValid(Catalogue(models, nextModelId))
    }

    /** The upsert loop of `sync_models`, counting the models it wrote. */
    method UpsertModels(providerId: int, listed: seq<ModelInfo>) returns (synced: int)
      requires Valid()
      modifies this`models, this`nextModelId
      ensures Valid()
      ensures synced == |listed|
      ensures Catalogue(models, nextModelId) == SyncAll(Catalogue(old(models), old(nextModelId)), providerId, listed)
    {
      ghost var c0 := Catalogue(models, nextModelId);
      synced := 0;
      var k := 0;
      while k < |listed|
        invariant 0 <= k <= |listed| && synced == k
        invariant Catalogue(models, nextModelId) == SyncAll(c0, providerId, listed[..k])
        invariant Valid()
      {
        assert listed[..k + 1][..k] == listed[..k];
        var c := Upsert(Catalogue(models, nextModelId), providerId, listed[k]);
        models, nextModelId := c.models, c.nextId;
        synced := synced + 1;
        k := k + 1;
      }
      assert listed[..k] == listed;
    }

    constructor(providers: seq<ProviderRow>, defaultModel: DefaultSetting)
      ensures Valid()
      ensures this.providers == providers && models == map[] && nextModelId == 1 && this.defaultModel == defaultModel
    {
      this.providers := providers;
      models := map[];
      nextModelId := 1;
      this.defaultModel := defaultModel;
    }
  }

  /** `LLMService`: its only state is the provider cache. */
  class LlmGateway {
    var cache: map<string, Provider>

    /** Every cached provider was built from the key its row now holds. */
    ghost predicate CacheAgrees(db: LlmTables)
      reads this, db`providers
    {
      forall n :: n in cache ==>
        KindOf(n) == Some(cache[n].kind)
        && exists j :: 0 <= j < |db.providers| && db.providers[j].name == n && db.providers[j].apiKey == Some(cache[n].apiKey)
    }

    constructor()
      ensures cache == map[]
    {
      cache := map[];
    }

    /** `_get_provider`. */
    method GetProvider(db: LlmTables, name: string) returns (p: Option<Provider>)
      modifies this`cache
      ensures p == Resolved(old(cache), db.providers, name)
      ensures cache == CacheAfter(old(cache), db.providers, name)
      ensures old(CacheAgrees(db)) ==> CacheAgrees(db)
    {
      if name in cache {
        return Some(cache[name]);
      }
      var i := FirstRow(db.providers, ActiveNamed(name));
      if i.None? || db.providers[i.value].apiKey.None? || db.providers[i.value].apiKey.value == "" {
        return None;
      }
      var key := db.providers[i.value].apiKey.value;
      var kind := KindOf(name);
      if kind.None? {
        return None;
      }
      p := Some(Provider(kind.value, key));
      cache := cache[name := p.value];
    }

    /**
     * `generate` up to the SDK call: the request sent, or the exception
     * raised; resolving the provider may fill the cache.
     */
    method Generate(db: LlmTables, modelId: Option<int>, thinkingMode: bool, maxTokens: int) returns (r: Result<Request>)
      modifies this`cache
      ensures r == Plan(old(cache), db.providers, db.models, db.defaultModel, modelId, thinkingMode, maxTokens)
      ensures Target(db.providers, db.models, db.defaultModel, modelId).Err? ==> cache == old(cache)
      ensures Target(db.providers, db.models, db.defaultModel, modelId).Ok? ==>
        cache == CacheAfter(old(cache), db.providers, Target(db.providers, db.models, db.defaultModel, modelId).value.1)
      ensures old(CacheAgrees(db)) ==> CacheAgrees(db)
    {
      var target := Target(db.providers, db.models, db.defaultModel, modelId);
      if target.Err? {
        return Err(target.error);
      }
      var (row, name) := target.value;
      var provider := GetProvider(db, name);
      if provider.None? {
        return Err("Provider " + name + " not configured");
      }
      var e := EffectiveParams(row, thinkingMode, maxTokens);
      r := Ok(Request(provider.value, row.modelId, e.thinking, e.budget, e.maxTokens));
    }

    /** `set_api_key`: the key is written to the provider's rows and its cached instance evicted. */
    method SetApiKey(db: LlmTables, name: string, key: string) returns (ok: bool)
      modifies db`providers, this`cache
      ensures ok
      ensures db.providers == SetKey(old(db.providers), name, key)
      ensures cache == map n | n in old(cache) && n != name :: old(cache)[n]
      ensures old(CacheAgrees(db)) ==> CacheAgrees(db)
    {
      ghost var before := db.providers;
      db.providers := SetKey(db.providers, name, key);
      cache := map n | n in cache && n != name :: cache[n];
      if old(CacheAgrees(db)) {
        forall n | n in cache
          ensures exists j :: 0 <= j < |db.providers| && db.providers[j].name == n && db.providers[j].apiKey == Some(cache[n].apiKey)
        {
          var j :| 0 <= j < |before| && before[j].name == n && before[j].apiKey == Some(cache[n].apiKey);
          assert db.providers[j] == before[j];
        }
      }
      ok := true;
    }

    /**
     * `sync_models`: the provider must be configured and have a row; the
     * listed models are upserted in order and their number returned.
     */
    method SyncModels(db: LlmTables, name: string, listed: seq<ModelInfo>) returns (r: Result<int>)
      requires db.Valid()
      modifies this`cache, db`models, db`nextModelId
      ensures db.Valid()
      ensures Resolved(old(cache), db.providers, name).None? ==>
        r == Err("Provider " + name + " not configured") && db.models == old(db.models)
      ensures Resolved(old(cache), db.providers, name).Some? && FirstRow(db.providers, Named(name)).None? ==>
        r == Err("Provider " + name + " not found in database") && db.models == old(db.models)
      ensures Resolved(old(cache), db.providers, name).Some? && FirstRow(db.providers, Named(name)).Some? ==>
        var pid := db.providers[FirstRow(db.providers, Named(name)).value].id;
        r == Ok(|listed|)
        && Catalogue(db.models, db.nextModelId) == SyncAll(Catalogue(old(db.models), old(db.nextModelId)), pid, listed)
      ensures old(CacheAgrees(db)) ==> CacheAgrees(db)
    {
      var provider := GetProvider(db, name);
      if provider.None? {
        return Err("Provider " + name + " not configured");
      }
      var prow := FirstRow(db.providers, Named(name));
      if prow.None? {
        return Err("Provider " + name + " not found in database");
      }
      var synced := db.UpsertModels(db.providers[prow.value].id, listed);
      r := Ok(synced);
    }

    /**
     * `update_model_config`: an unknown id raises; otherwise the keys
     * present are written, an empty configuration writing nothing, and the
     * answer is true.
     */
    method UpdateModelConfig(db: LlmTables, id: int, config: ModelConfig) returns (r: Result<bool>)
      requires db.Valid()
      modifies db`models
      ensures db.Valid()
      ensures id !in old(db.models) ==> r == Err("Model not found") && db.models == old(db.models)
      ensures id in old(db.models) ==> r == Ok(true) && db.models == old(db.models)[id := Configured(old(db.models)[id], config)]
    {
      if id !in db.models {
        return Err("Model not found");
      }
      var fields := ConfigFields(config);
      if fields == [] {
        EmptyConfigChangesNothing(db.models[id]);
        assert config == ModelConfig(None, None, None);
        assert db.models[id := Configured(db.models[id], config)] == db.models;
        return Ok(true);
      }
      db.models := db.models[id := Configured(db.models[id], config)];
      r := Ok(true);
    }
  }
}
