/**
 * System-prompt resolution (backend/services/prompt_service.py): the
 * stock_summary_prompt of the most recently updated active-group membership,
 * else the stored `default_prompt` setting, else a built-in text.
 */
module PromptService {
  import opened Wrappers
  import opened Store

  const DefaultPromptText: string :=
    "\nYou are an expert financial analyst. \nAnalyze the provided earnings call transcript and provide a detailed summary, \nhighlighting key financial metrics, strategic initiatives, and potential risks.\n"

  /** The membership joins an active group for the stock. */
  predicate ActiveMembership(groups: map<int, Group>, m: GroupStock, stockId: int) {
    m.stockId == stockId && m.groupId in groups && groups[m.groupId].active
  }

  /** The ORDER BY gs.updated_at DESC, gs.added_at DESC key: `a` sorts no later than `b`. */
  predicate NotOlder(a: GroupStock, b: GroupStock) {
    a.updatedAt > b.updatedAt || (a.updatedAt == b.updatedAt && a.addedAt >= b.addedAt)
  }

  /**
   * The row LIMIT 1 returns: the first active membership in table order
   * among those no other membership sorts before.
   */
  function NewestMembership(groups: map<int, Group>, gs: seq<GroupStock>, stockId: int): (r: Option<nat>)
    ensures r.Some? ==> r.value < |gs| && ActiveMembership(groups, gs[r.value], stockId)
    decreases |gs|
  {
    if gs == [] then None
    else
      var rest := NewestMembership(groups, gs[..|gs| - 1], stockId);
      var last := gs[|gs| - 1];
      if !ActiveMembership(groups, last, stockId) then rest
      else if rest.None? then Some(|gs| - 1)
      else if NotOlder(gs[rest.value], last) then rest
      else Some(|gs| - 1)
  }

  /**
   * The row found sorts no later than any other active membership, and
   * none is found exactly when the stock has no active one.
   */
  lemma {:induction false} NewestMembershipIsNewest(groups: map<int, Group>, gs: seq<GroupStock>, stockId: int)
    ensures var r := NewestMembership(groups, gs, stockId);
      && (r.Some? ==> forall k :: 0 <= k < |gs| && ActiveMembership(groups, gs[k], stockId) ==> NotOlder(gs[r.value], gs[k]))
      && (r.None? <==> forall k :: 0 <= k < |gs| ==> !ActiveMembership(groups, gs[k], stockId))
    decreases |gs|
  {
    if gs != [] {
      var init := gs[..|gs| - 1];
      NewestMembershipIsNewest(groups, init, stockId);
      assert forall k :: 0 <= k < |init| ==> gs[k] == init[k];
    }
  }

  /** _get_default_prompt: the stored setting when non-empty, else the built-in text. */
  function DefaultPrompt(setting: Option<string>): (p: string)
    ensures HasText(setting) ==> p == setting.value
    ensures !HasText(setting) ==> p == DefaultPromptText
  {
    if HasText(setting) then setting.value else DefaultPromptText
  }

  /** resolve_prompt. */
  function ResolvePrompt(groups: map<int, Group>, gs: seq<GroupStock>, stockId: int, setting: Option<string>): (p: string)
    ensures p != ""
  {
    var newest := NewestMembership(groups, gs, stockId);
    if newest.Some? && HasText(groups[gs[newest.value].groupId].stockSummaryPrompt)
    then groups[gs[newest.value].groupId].stockSummaryPrompt.value
    else DefaultPrompt(setting)
  }

  /** Only an active group's prompt is ever used; with no active membership the default chain applies. */
  lemma NoActiveGroupUsesDefault(groups: map<int, Group>, gs: seq<GroupStock>, stockId: int, setting: Option<string>)
    requires forall k :: 0 <= k < |gs| ==> !ActiveMembership(groups, gs[k], stockId)
    ensures ResolvePrompt(groups, gs, stockId, setting) == DefaultPrompt(setting)
  {
    NewestMembershipIsNewest(groups, gs, stockId);
  }

  /**
   * A non-empty prompt of the newest active membership wins; otherwise (an
   * empty or NULL prompt there) resolution falls through to the default,
   * even when an older membership carries a prompt.
   */
  lemma NewestPromptWins(groups: map<int, Group>, gs: seq<GroupStock>, stockId: int, setting: Option<string>, k: nat)
    requires k < |gs| && ActiveMembership(groups, gs[k], stockId)
    requires forall i :: 0 <= i < |gs| && i != k && ActiveMembership(groups, gs[i], stockId) ==> !NotOlder(gs[i], gs[k])
    ensures HasText(groups[gs[k].groupId].stockSummaryPrompt) ==>
      ResolvePrompt(groups, gs, stockId, setting) == groups[gs[k].groupId].stockSummaryPrompt.value
    ensures !HasText(groups[gs[k].groupId].stockSummaryPrompt) ==>
      ResolvePrompt(groups, gs, stockId, setting) == DefaultPrompt(setting)
  {
    var newest := NewestMembership(groups, gs, stockId);
    NewestMembershipIsNewest(groups, gs, stockId);
    assert newest.Some?;
    assert NotOlder(gs[newest.value], gs[k]);
  }
}
