/**
 * Per-group deep research (backend/services/group_research_service.py):
 * once every stock of an active group has an available transcript for the
 * same (quarter, year), one run per group and period is created and later
 * processed: the transcripts are collected, downloaded, truncated and sent
 * to the language model, and the run row ends `done` or `error`. Starting
 * a run's thread is modelled by returning the run ids to process;
 * `ProcessRun` is one such thread's work.
 */
module GroupResearch {
  import opened Wrappers
  import opened Text
  import opened Store
  import CallSites

  const TruncateAt: nat := 12000
  const NoPrompt := "No deep_research_prompt configured for this group"
  const NoStocks := "Group has no stocks"
  const NothingAvailable := "No transcripts available for requested quarter/year"
  const NothingProcessed := "No transcripts could be processed"

  // ---------------------------------------------------------------------
  // Collecting a group's transcripts
  // ---------------------------------------------------------------------

  /** A row of `SELECT s.id, COALESCE(s.stock_symbol, s.bse_code), s.stock_name ... JOIN group_stocks`. */
  datatype Member = Member(stockId: int, symbol: Option<string>, name: string)

  /** One entry of `available`: the stock and its transcript's id and url. */
  datatype Item = Item(stock: Member, transcriptId: int, sourceUrl: Option<string>)

  /** SQL COALESCE: the first non-NULL value (an empty string is kept). */
  function Coalesce(a: Option<string>, b: Option<string>): (r: Option<string>)
    ensures a.Some? ==> r == a
    ensures a.None? ==> r == b
  {
    if a.Some? then a else b
  }

  /** The group's members that exist in `stocks`, in group_stocks order. */
  function Members(stocks: map<int, Stock>, gs: seq<GroupStock>, groupId: int): (r: seq<Member>)
    ensures forall k :: 0 <= k < |r| ==> r[k].stockId in stocks
    ensures forall k :: 0 <= k < |r| ==> r[k].symbol == Coalesce(stocks[r[k].stockId].symbol, stocks[r[k].stockId].bseCode)
    ensures |r| <= |gs|
  {
    if gs == [] then []
    else
      var rest := Members(stocks, gs[..|gs| - 1], groupId);
      var m := gs[|gs| - 1];
      if m.groupId == groupId && m.stockId in stocks then
        var s := stocks[m.stockId];
        rest + [Member(m.stockId, Coalesce(s.symbol, s.bseCode), s.name)]
      else rest
  }

  predicate AvailableFor(t: Transcript, stockId: int, quarter: string, year: int) {
    t.stockId == stockId && t.quarter == quarter && t.year == year && t.status == Available
  }

  /** `fetchone()` over the stock's available transcripts for the period: the lowest id. */
  function FirstAvailable(ts: map<int, Transcript>, hi: int, stockId: int, quarter: string, year: int): (found: Option<int>)
    ensures found.Some? ==> found.value in ts && AvailableFor(ts[found.value], stockId, quarter, year)
    ensures found.None? ==> forall i :: 1 <= i < hi && i in ts ==> !AvailableFor(ts[i], stockId, quarter, year)
  {
    var p := i => i in ts && AvailableFor(ts[i], stockId, quarter, year);
    var found := FirstMatch(1, hi, p);
    assert forall i :: p(i) == (i in ts && AvailableFor(ts[i], stockId, quarter, year));
    found
  }

  /** The `available` list of `_collect_transcripts` for the first members. */
  function AvailableOf(ts: map<int, Transcript>, hi: int, members: seq<Member>, quarter: string, year: int): seq<Item>
  {
    if members == [] then []
    else
      var rest := AvailableOf(ts, hi, members[..|members| - 1], quarter, year);
      var m := members[|members| - 1];
      var found := FirstAvailable(ts, hi, m.stockId, quarter, year);
      if found.Some? then rest + [Item(m, found.value, ts[found.value].sourceUrl)] else rest
  }

  /** The `missing` list of `_collect_transcripts` for the first members. */
  function MissingOf(ts: map<int, Transcript>, hi: int, members: seq<Member>, quarter: string, year: int): seq<Member>
  {
    if members == [] then []
    else
      var rest := MissingOf(ts, hi, members[..|members| - 1], quarter, year);
      var m := members[|members| - 1];
      if FirstAvailable(ts, hi, m.stockId, quarter, year).None? then rest + [m] else rest
  }

  /** The stock has an entry in the `available` list. */
  predicate Listed(a: seq<Item>, x: Member) {
    exists k :: 0 <= k < |a| && a[k].stock == x
  }

  /**
   * The two lists partition the members: together they have one entry per
   * member, a member is missing exactly when it has no available
   * transcript for the period, and an available entry names that
   * transcript.
   */
  lemma {:induction false} CollectPartitions(ts: map<int, Transcript>, hi: int, members: seq<Member>, quarter: string, year: int)
    ensures var a := AvailableOf(ts, hi, members, quarter, year);
      var m := MissingOf(ts, hi, members, quarter, year);
      && |a| + |m| == |members|
      && (forall x :: x in m <==> x in members && FirstAvailable(ts, hi, x.stockId, quarter, year).None?)
      && (forall x :: Listed(a, x) <==>
                       x in members && FirstAvailable(ts, hi, x.stockId, quarter, year).Some?)
      && (forall k :: 0 <= k < |a| ==>
            (a[k].transcriptId in ts && AvailableFor(ts[a[k].transcriptId], a[k].stock.stockId, quarter, year)))
  {
    CollectLengths(ts, hi, members, quarter, year);
    MissingExactly(ts, hi, members, quarter, year);
    AvailableExactly(ts, hi, members, quarter, year);
  }

  lemma {:induction false} CollectLengths(ts: map<int, Transcript>, hi: int, members: seq<Member>, quarter: string, year: int)
    ensures |AvailableOf(ts, hi, members, quarter, year)| + |MissingOf(ts, hi, members, quarter, year)| == |members|
  {
    if members != [] {
      CollectLengths(ts, hi, members[..|members| - 1], quarter, year);
    }
  }

  lemma {:induction false} MissingExactly(ts: map<int, Transcript>, hi: int, members: seq<Member>, quarter: string, year: int)
    ensures forall x :: x in MissingOf(ts, hi, members, quarter, year) <==>
      x in members && FirstAvailable(ts, hi, x.stockId, quarter, year).None?
  {
    if members != [] {
      var init := members[..|members| - 1];
      MissingExactly(ts, hi, init, quarter, year);
      assert forall x :: x in members <==> x in init || x == members[|members| - 1];
    }
  }

  lemma {:induction false} AvailableExactly(ts: map<int, Transcript>, hi: int, members: seq<Member>, quarter: string, year: int)
    ensures var a := AvailableOf(ts, hi, members, quarter, year);
      && (forall x :: Listed(a, x) <==>
                       x in members && FirstAvailable(ts, hi, x.stockId, quarter, year).Some?)
      && (forall k :: 0 <= k < |a| ==>
            (a[k].transcriptId in ts && AvailableFor(ts[a[k].transcriptId], a[k].stock.stockId, quarter, year)))
  {
    if members != [] {
      var init := members[..|members| - 1];
      AvailableExactly(ts, hi, init, quarter, year);
      assert forall x :: x in members <==> x in init || x == members[|members| - 1];
      var a0 := AvailableOf(ts, hi, init, quarter, year);
      var a := AvailableOf(ts, hi, members, quarter, year);
      var last := members[|members| - 1];
      var found := FirstAvailable(ts, hi, last.stockId, quarter, year);
      assert found.None? ==> a == a0;
      assert found.Some? ==> a == a0 + [Item(last, found.value, ts[found.value].sourceUrl)];
      assert forall k :: 0 <= k < |a0| ==> a[k] == a0[k];
      forall x | x in members && FirstAvailable(ts, hi, x.stockId, quarter, year).Some?
        ensures Listed(a, x)
      {
        if x == last {
          assert a[|a| - 1].stock == x;
        } else {
          assert x in init && Listed(a0, x);
          var k :| 0 <= k < |a0| && a0[k].stock == x;
          assert a[k].stock == x;
        }
      }
      forall x | Listed(a, x)
        ensures x in members && FirstAvailable(ts, hi, x.stockId, quarter, year).Some?
      {
        var k :| 0 <= k < |a| && a[k].stock == x;
        if k < |a0| {
          assert Listed(a0, x);
        } else {
          assert x == last;
        }
      }
    }
  }

  /** `_collect_transcripts`: the members and the loop that sorts them into available and missing. */
  method CollectTranscripts(db: Database, groupId: int, quarter: string, year: int)
    returns (stocks: seq<Member>, available: seq<Item>, missing: seq<Member>)
    ensures stocks == Members(db.stocks, db.groupStocks, groupId)
    ensures available == AvailableOf(db.transcripts, db.nextId, stocks, quarter, year)
    ensures missing == MissingOf(db.transcripts, db.nextId, stocks, quarter, year)
  {
    stocks := Members(db.stocks, db.groupStocks, groupId);
    available, missing := [], [];
    var i := 0;
    while i < |stocks|
      invariant 0 <= i <= |stocks|
      invariant available == AvailableOf(db.transcripts, db.nextId, stocks[..i], quarter, year)
      invariant missing == MissingOf(db.transcripts, db.nextId, stocks[..i], quarter, year)
    {
      assert stocks[..i + 1][..i] == stocks[..i];
      var found := FirstAvailable(db.transcripts, db.nextId, stocks[i].stockId, quarter, year);
      if found.Some? {
        available := available + [Item(stocks[i], found.value, db.transcripts[found.value].sourceUrl)];
      } else {
        missing := missing + [stocks[i]];
      }
      i := i + 1;
    }
    assert stocks[..i] == stocks;
  }

  // ---------------------------------------------------------------------
  // Which runs are due: the intersection of available periods
  // ---------------------------------------------------------------------

  /** `_group_stock_ids`: the stock ids of the group's group_stocks rows, in order. */
  function GroupStockIds(gs: seq<GroupStock>, groupId: int): (r: seq<int>)
    ensures forall x :: x in r <==> exists k :: 0 <= k < |gs| && gs[k].groupId == groupId && gs[k].stockId == x
  {
    if gs == [] then []
    else
      var rest := GroupStockIds(gs[..|gs| - 1], groupId);
      assert forall k :: 0 <= k < |gs| - 1 ==> gs[..|gs| - 1][k] == gs[k];
      if gs[|gs| - 1].groupId == groupId then rest + [gs[|gs| - 1].stockId] else rest
  }

  /** `_available_quarters_for_stock` as a set of (quarter, year). */
  function PeriodsOf(ts: map<int, Transcript>, stockId: int): set<(string, int)> {
    set i | i in ts && ts[i].stockId == stockId && ts[i].status == Available :: (ts[i].quarter, ts[i].year)
  }

  /** The periods available for every one of the stocks. */
  function Common(ts: map<int, Transcript>, ids: seq<int>): set<(string, int)> {
    if |ids| == 0 then {}
    else if |ids| == 1 then PeriodsOf(ts, ids[0])
    else Common(ts, ids[..|ids| - 1]) * PeriodsOf(ts, ids[|ids| - 1])
  }

  /** A period is common exactly when every stock of the list has it available. */
  lemma {:induction false} CommonMeansEveryStock(ts: map<int, Transcript>, ids: seq<int>, p: (string, int))
    requires |ids| >= 1
    ensures p in Common(ts, ids) <==> forall k :: 0 <= k < |ids| ==> p in PeriodsOf(ts, ids[k])
  {
    if |ids| > 1 {
      var init := ids[..|ids| - 1];
      CommonMeansEveryStock(ts, init, p);
      assert forall k :: 0 <= k < |init| ==> init[k] == ids[k];
    }
  }

  /** Once the running intersection is empty it stays empty, which is why the loop may stop early. */
  lemma CommonEmptyStays(ts: map<int, Transcript>, ids: seq<int>, n: nat)
    requires 1 <= n <= |ids| && Common(ts, ids[..n]) == {}
    ensures Common(ts, ids) == {}
  {
    forall p | p in Common(ts, ids)
      ensures false
    {
      CommonMeansEveryStock(ts, ids, p);
      assert forall k :: 0 <= k < n ==> ids[..n][k] == ids[k];
      CommonMeansEveryStock(ts, ids[..n], p);
    }
  }

  /** The `intersection` loop of `check_and_trigger_runs`, with its early `break`. */
  method Intersection(ts: map<int, Transcript>, ids: seq<int>) returns (r: set<(string, int)>)
    requires |ids| >= 1
    ensures r == Common(ts, ids)
  {
    r := {};
    var i := 0;
    while i < |ids|
      invariant 0 <= i <= |ids|
      invariant i > 0 ==> r == Common(ts, ids[..i])
      invariant i > 0 ==> r != {}
    {
      var periods := PeriodsOf(ts, ids[i]);
      assert ids[..i + 1][..i] == ids[..i];
      if i == 0 {
        r := periods;
      } else {
        r := r * periods;
      }
      if r == {} {
        CommonEmptyStays(ts, ids, i + 1);
        return;
      }
      i := i + 1;
    }
    assert ids[..i] == ids;
  }

  /** A group the scan considers: active, with a deep-research prompt and at least one stock. */
  predicate Considered(groups: map<int, Group>, gs: seq<GroupStock>, g: int) {
    g in groups && groups[g].active && HasText(groups[g].deepResearchPrompt) && GroupStockIds(gs, g) != []
  }

  /** The scan wants a run for (group, quarter, year): a considered group whose stocks all have the period available. */
  predicate Target(groups: map<int, Group>, gs: seq<GroupStock>, ts: map<int, Transcript>, k: (int, string, int)) {
    Considered(groups, gs, k.0) && (k.1, k.2) in Common(ts, GroupStockIds(gs, k.0))
  }

  function KeyOf(r: GroupRun): (int, string, int) {
    (r.groupId, r.quarter, r.year)
  }

  /** The row `INSERT INTO group_research_runs (group_id, quarter, year, status) VALUES (..., 'pending')` writes. */
  function NewRun(key: (int, string, int)): GroupRun {
    GroupRun(key.0, key.1, key.2, RunPending, None, None, None, None, None)
  }

  /** The reset of an `error` run: back to `pending`, error_message NULL. */
  function Reset(r: GroupRun): GroupRun {
    r.(status := RunPending, errorMessage := None)
  }

  /** The run row of a period, by lowest id. */
  function RunFor(runs: map<int, GroupRun>, hi: int, key: (int, string, int)): (found: Option<int>)
    ensures found.Some? ==> found.value in runs && KeyOf(runs[found.value]) == key
    ensures found.None? ==> forall i :: 1 <= i < hi && i in runs ==> KeyOf(runs[i]) != key
  {
    var p := i => i in runs && KeyOf(runs[i]) == key;
    var found := FirstMatch(1, hi, p);
    assert forall i :: p(i) == (i in runs && KeyOf(runs[i]) == key);
    found
  }

  /** What handling the periods `done` does to a run that existed before. */
  function HandleRun(r: GroupRun, done: set<(int, string, int)>): (u: GroupRun)
    ensures KeyOf(u) == KeyOf(r)
  {
    if KeyOf(r) in done && r.status == RunError then Reset(r) else r
  }

  predicate NoRunFor(runs: map<int, GroupRun>, key: (int, string, int)) {
    forall j :: j in runs ==> KeyOf(runs[j]) != key
  }

  predicate HasRunFor(runs: map<int, GroupRun>, key: (int, string, int)) {
    exists id :: id in runs && KeyOf(runs[id]) == key
  }

  /** Every run that existed is still there: reset when its period was handled and it was `error`, else unchanged. */
  ghost predicate KeptOrReset(before: map<int, GroupRun>, after: map<int, GroupRun>, done: set<(int, string, int)>) {
    forall id :: id in before ==> id in after && after[id] == HandleRun(before[id], done)
  }

  /** Every new run is a pending run of a handled period that had no run. */
  ghost predicate OnlyNewPeriods(before: map<int, GroupRun>, after: map<int, GroupRun>, done: set<(int, string, int)>) {
    forall id :: id in after && id !in before ==>
      after[id] == NewRun(KeyOf(after[id])) && KeyOf(after[id]) in done && NoRunFor(before, KeyOf(after[id]))
  }

  /** Every handled period has a run. */
  ghost predicate Covered(after: map<int, GroupRun>, done: set<(int, string, int)>) {
    forall key :: key in done ==> HasRunFor(after, key)
  }

  /** The started runs are exactly the new runs and the reset ones. */
  ghost predicate StartedExactly(before: map<int, GroupRun>, after: map<int, GroupRun>, done: set<(int, string, int)>, started: set<int>) {
    forall id :: id in started <==>
      id in after && (id !in before || (KeyOf(before[id]) in done && before[id].status == RunError))
  }

  /**
   * The runs table after the scan has handled the periods `done`, relative
   * to `before`: an `error` run of a handled period is reset, any other
   * existing run is left alone, a handled period without a run gets a new
   * pending one, and `started` holds exactly the reset and the new runs.
   */
  ghost predicate Handled(before: map<int, GroupRun>, after: map<int, GroupRun>, done: set<(int, string, int)>, started: set<int>) {
    KeptOrReset(before, after, done) && OnlyNewPeriods(before, after, done) && Covered(after, done)
      && StartedExactly(before, after, done, started)
  }
  /** Handling a period that already has a run keeps `Handled`. */
  lemma HandledExisting(before: map<int, GroupRun>, mid: map<int, GroupRun>, after: map<int, GroupRun>,
                        done: set<(int, string, int)>, started: set<int>, key: (int, string, int), id: int, s: Option<int>)
    requires Handled(before, mid, done, started) && key !in done && RunPeriodsUnique(mid)
    requires id in mid && KeyOf(mid[id]) == key
    requires mid[id].status == RunError ==> s == Some(id) && after == mid[id := Reset(mid[id])]
    requires mid[id].status != RunError ==> s.None? && after == mid
    ensures id in before && mid[id] == before[id]
    ensures Handled(before, after, done + {key}, if s.Some? then started + {s.value} else started)
  {
    assert KeyOf(mid[id]) !in done;
    assert id in before;
    assert mid[id] == before[id];
    var done' := done + {key};
    var started' := if s.Some? then started + {s.value} else started;
    assert KeptOrReset(before, after, done') by {
      forall j | j in before
        ensures j in after && after[j] == HandleRun(before[j], done')
      {
        if j != id {
          assert j in mid && KeyOf(mid[j]) == KeyOf(before[j]);
        }
      }
    }
    assert Covered(after, done') by {
      forall k | k in done'
        ensures HasRunFor(after, k)
      {
        if k == key {
          assert id in after && KeyOf(after[id]) == key;
        } else {
          var j :| j in mid && KeyOf(mid[j]) == k;
          assert j in after && KeyOf(after[j]) == k;
        }
      }
    }
  }

  /** Handling a period with no run, by inserting one under the next id, keeps `Handled`. */
  lemma HandledInserted(before: map<int, GroupRun>, mid: map<int, GroupRun>, after: map<int, GroupRun>, hi: int,
                        done: set<(int, string, int)>, started: set<int>, key: (int, string, int))
    requires Handled(before, mid, done, started) && key !in done
    requires hi !in mid && NoRunFor(mid, key)
    requires after == mid[hi := NewRun(key)]
    ensures Handled(before, after, done + {key}, started + {hi})
  {
    var done' := done + {key};
    assert hi !in before;
    assert NoRunFor(before, key) by {
      forall j | j in before
        ensures KeyOf(before[j]) != key
      {
        assert j in mid && KeyOf(mid[j]) == KeyOf(before[j]);
      }
    }
    assert KeptOrReset(before, after, done') by {
      forall j | j in before
        ensures j in after && after[j] == HandleRun(before[j], done')
      {
        assert KeyOf(before[j]) != key;
      }
    }
    assert Covered(after, done') by {
      forall k | k in done'
        ensures HasRunFor(after, k)
      {
        if k == key {
          assert hi in after && KeyOf(after[hi]) == key;
        } else {
          var j :| j in mid && KeyOf(mid[j]) == k;
          assert j in after && KeyOf(after[j]) == k;
        }
      }
    }
  }

  // ---------------------------------------------------------------------
  // The scan, one period at a time
  // ---------------------------------------------------------------------

  /** The runs table, its id counter, and the runs whose processing thread was started. */
  datatype RunTable = RunTable(runs: map<int, GroupRun>, nextId: int, started: set<int>)

  /** UNIQUE(group_id, quarter, year), and ids below the AUTOINCREMENT counter. */
  predicate TableValid(t: RunTable) {
    t.nextId >= 1 && RunPeriodsUnique(t.runs) && (forall id :: id in t.runs ==> 1 <= id < t.nextId)
  }

  /**
   * One period of `check_and_trigger_runs`: with no run, a pending one is
   * inserted and started; an `error` run is reset and started; a run in any
   * other status is left alone.
   */
  function StepRun(t: RunTable, key: (int, string, int)): RunTable {
    var found := RunFor(t.runs, t.nextId, key);
    if found.None? then RunTable(t.runs[t.nextId := NewRun(key)], t.nextId + 1, t.started + {t.nextId})
    else if t.runs[found.value].status == RunError
    then RunTable(t.runs[found.value := Reset(t.runs[found.value])], t.nextId, t.started + {found.value})
    else t
  }

  /** The periods handled in the order of `keys`. */
  function TriggerAll(t: RunTable, keys: seq<(int, string, int)>): RunTable
    decreases |keys|
  {
    if keys == [] then t else TriggerAll(StepRun(t, keys[0]), keys[1..])
  }

  /** Handling two lists one after the other is handling their concatenation. */
  lemma {:induction false} TriggerAllAppend(t: RunTable, a: seq<(int, string, int)>, b: seq<(int, string, int)>)
    ensures TriggerAll(t, a + b) == TriggerAll(TriggerAll(t, a), b)
    decreases |a|
  {
    if a == [] {
      assert a + b == b;
    } else {
      assert (a + b)[0] == a[0] && (a + b)[1..] == a[1..] + b;
      TriggerAllAppend(StepRun(t, a[0]), a[1..], b);
    }
  }

  function KeySet(keys: seq<(int, string, int)>): set<(int, string, int)> {
    set k | k in keys
  }

  predicate Distinct<T(==)>(s: seq<T>) {
    forall i, j :: 0 <= i < j < |s| ==> s[i] != s[j]
  }

  /** A step keeps the table's uniqueness, and at most one run exists per period. */
  lemma StepRunValid(t: RunTable, key: (int, string, int))
    requires TableValid(t)
    ensures TableValid(StepRun(t, key)) && StepRun(t, key).nextId >= t.nextId
  {
    var found := RunFor(t.runs, t.nextId, key);
    if found.None? {
      assert NoRunFor(t.runs, key) by {
        forall j | j in t.runs
          ensures KeyOf(t.runs[j]) != key
        {
          assert 1 <= j < t.nextId;
        }
      }
    }
  }

  /** One step keeps the table valid and extends `Handled` by its period. */
  lemma StepRunHandled(before: map<int, GroupRun>, t: RunTable, done: set<(int, string, int)>, key: (int, string, int))
    requires TableValid(t) && Handled(before, t.runs, done, t.started) && key !in done
    ensures var m := StepRun(t, key);
      TableValid(m) && Handled(before, m.runs, done + {key}, m.started)
  {
    var m := StepRun(t, key);
    StepRunValid(t, key);
    var found := RunFor(t.runs, t.nextId, key);
    if found.Some? {
      var s := if t.runs[found.value].status == RunError then Some(found.value) else None;
      HandledExisting(before, t.runs, m.runs, done, t.started, key, found.value, s);
    } else {
      assert NoRunFor(t.runs, key) by {
        forall j | j in t.runs
          ensures KeyOf(t.runs[j]) != key
        {
          assert 1 <= j < t.nextId;
        }
      }
      HandledInserted(before, t.runs, m.runs, t.nextId, done, t.started, key);
    }
  }

  lemma KeySetCons(keys: seq<(int, string, int)>, done: set<(int, string, int)>)
    requires keys != []
    ensures done + {keys[0]} + KeySet(keys[1..]) == done + KeySet(keys)
  {
    assert keys == [keys[0]] + keys[1..];
  }

  /** The rest of a list of distinct, not yet handled periods is again one. */
  lemma DistinctTail(keys: seq<(int, string, int)>, done: set<(int, string, int)>)
    requires keys != [] && Distinct(keys) && forall k :: k in keys ==> k !in done
    ensures Distinct(keys[1..]) && forall k :: k in keys[1..] ==> k !in done + {keys[0]}
  {
    assert Distinct(keys[1..]) by {
      forall i, j | 0 <= i < j < |keys[1..]|
        ensures keys[1..][i] != keys[1..][j]
      {
        assert keys[1..][i] == keys[i + 1] && keys[1..][j] == keys[j + 1];
      }
    }
    forall k | k in keys[1..]
      ensures k !in done + {keys[0]}
    {
      var j :| 0 <= j < |keys[1..]| && keys[1..][j] == k;
      assert keys[j + 1] == k;
    }
  }

  /** A valid table stays valid, and `Handled` relative to `before` extends to the newly handled periods. */
  lemma {:induction false} TriggerAllKeepsHandled(before: map<int, GroupRun>, t: RunTable, done: set<(int, string, int)>,
                                                  keys: seq<(int, string, int)>)
    requires TableValid(t) && Handled(before, t.runs, done, t.started)
    requires Distinct(keys) && forall k :: k in keys ==> k !in done
    ensures var u := TriggerAll(t, keys);
      TableValid(u) && Handled(before, u.runs, done + KeySet(keys), u.started)
    decreases |keys|
  {
    if keys == [] {
      assert done + KeySet(keys) == done;
    } else {
      var key := keys[0];
      StepRunHandled(before, t, done, key);
      DistinctTail(keys, done);
      TriggerAllKeepsHandled(before, StepRun(t, key), done + {key}, keys[1..]);
      KeySetCons(keys, done);
    }
  }

  /**
   * Handling a list of distinct periods from a valid table: every handled
   * period ends with exactly one run, an `error` run of a handled period is
   * reset to `pending`, every other existing run is left as it was, a new
   * run is a pending run of a handled period that had none, and the started
   * runs are exactly the new and the reset ones.
   */
  lemma TriggerAllHandled(t: RunTable, keys: seq<(int, string, int)>)
    requires TableValid(t) && t.started == {} && Distinct(keys)
    ensures var u := TriggerAll(t, keys);
      TableValid(u) && Handled(t.runs, u.runs, KeySet(keys), u.started)
  {
    assert Handled(t.runs, t.runs, {}, t.started);
    TriggerAllKeepsHandled(t.runs, t, {}, keys);
    assert {} + KeySet(keys) == KeySet(keys);
  }

  /** One period of the scan against the database. */
  method TriggerPeriod(db: Database, key: (int, string, int), startedBefore: set<int>) returns (started: set<int>)
    requires db.Valid()
    modifies db`runs, db`nextId
    ensures db.Valid()
    ensures RunTable(db.runs, db.nextId, started) == StepRun(RunTable(old(db.runs), old(db.nextId), startedBefore), key)
  {
    StepRunValid(RunTable(db.runs, db.nextId, startedBefore), key);
    var found := RunFor(db.runs, db.nextId, key);
    started := startedBefore;
    if found.None? {
      var id := db.FreshId();
      db.runs := db.runs[id := NewRun(key)];
      started := started + {id};
    } else if db.runs[found.value].status == RunError {
      db.runs := db.runs[found.value := Reset(db.runs[found.value])];
      started := started + {found.value};
    }
  }

  /** `for quarter, year in intersection`: the set's periods, each once, in the order the iteration takes. */
  method Enumerate(g: int, periods: set<(string, int)>) returns (keys: seq<(int, string, int)>)
    ensures Distinct(keys)
    ensures forall k :: k in keys <==> k.0 == g && (k.1, k.2) in periods
  {
    keys := [];
    var rest := periods;
    while rest != {}
      invariant rest <= periods
      invariant Distinct(keys)
      invariant forall k :: k in keys <==> k.0 == g && (k.1, k.2) in periods && (k.1, k.2) !in rest
      decreases |rest|
    {
      assert (forall x :: x !in rest) ==> rest == {};
      var p :| p in rest;
      keys := keys + [(g, p.0, p.1)];
      rest := rest - {p};
    }
  }

  lemma DistinctAppend<T>(a: seq<T>, b: seq<T>)
    requires Distinct(a) && Distinct(b) && forall x :: x in a ==> x !in b
    ensures Distinct(a + b)
  {
    forall i, j | 0 <= i < j < |a + b|
      ensures (a + b)[i] != (a + b)[j]
    {
      if j < |a| {
        assert (a + b)[i] == a[i] && (a + b)[j] == a[j];
      } else if i >= |a| {
        assert (a + b)[i] == b[i - |a|] && (a + b)[j] == b[j - |a|];
      } else {
        assert (a + b)[i] == a[i] && (a + b)[j] == b[j - |a|];
        assert a[i] in a && b[j - |a|] in b;
      }
    }
  }

  lemma TriggerAllFrom(t: RunTable, keys: seq<(int, string, int)>, i: nat)
    requires i < |keys|
    ensures TriggerAll(t, keys[i..]) == TriggerAll(StepRun(t, keys[i]), keys[i + 1..])
  {
    assert keys[i..][0] == keys[i] && keys[i..][1..] == keys[i + 1..];
  }

  /** The inner loop of the scan: the periods of one group, handled in order. */
  method TriggerKeys(db: Database, keys: seq<(int, string, int)>, startedBefore: set<int>) returns (started: set<int>)
    requires db.Valid()
    modifies db`runs, db`nextId
    ensures db.Valid()
    ensures RunTable(db.runs, db.nextId, started) == TriggerAll(RunTable(old(db.runs), old(db.nextId), startedBefore), keys)
  {
    started := startedBefore;
    ghost var goal := TriggerAll(RunTable(db.runs, db.nextId, started), keys);
    var i := 0;
    while i < |keys|
      invariant 0 <= i <= |keys|
      invariant db.Valid()
      invariant TriggerAll(RunTable(db.runs, db.nextId, started), keys[i..]) == goal
    {
      TriggerAllFrom(RunTable(db.runs, db.nextId, started), keys, i);
      started := TriggerPeriod(db, keys[i], started);
      i := i + 1;
    }
  }

  /**
   * check_and_trigger_runs. The groups and each group's intersection are
   * visited in an order the model leaves open; `order` is the order the
   * periods were handled in, which decides only which ids new runs
   * receive. The result is the set of runs whose processing starts;
   * TriggerAllHandled says what the scan does to the table.
   */
  method CheckAndTriggerRuns(db: Database) returns (started: set<int>, ghost order: seq<(int, string, int)>)
    requires db.Valid()
    modifies db`runs, db`nextId
    ensures db.Valid()
    ensures Distinct(order)
    ensures forall k :: k in order <==> Target(db.groups, db.groupStocks, db.transcripts, k)
    ensures RunTable(db.runs, db.nextId, started) == TriggerAll(RunTable(old(db.runs), old(db.nextId), {}), order)
  {
    ghost var t0 := RunTable(db.runs, db.nextId, {});
    started := {};
    order := [];
    var remaining := db.groups.Keys;
    while remaining != {}
      invariant remaining <= db.groups.Keys
      invariant db.Valid()
      invariant Distinct(order)
      invariant forall k :: k in order <==> k.0 !in remaining && Target(db.groups, db.groupStocks, db.transcripts, k)
      invariant RunTable(db.runs, db.nextId, started) == TriggerAll(t0, order)
      decreases |remaining|
    {
      var g := PickId(remaining);
      var keys: seq<(int, string, int)> := [];
      if Considered(db.groups, db.groupStocks, g) {
        var common := Intersection(db.transcripts, GroupStockIds(db.groupStocks, g));
        keys := Enumerate(g, common);
      }
      assert forall k :: k in keys <==> k.0 == g && Target(db.groups, db.groupStocks, db.transcripts, k);
      DistinctAppend(order, keys);
      started := TriggerKeys(db, keys, started);
      TriggerAllAppend(t0, order, keys);
      order := order + keys;
      remaining := remaining - {g};
    }
  }

  // ---------------------------------------------------------------------
  // Forcing a run
  // ---------------------------------------------------------------------

  function Symbols(items: seq<Item>): (r: seq<Option<string>>)
    ensures |r| == |items| && forall k :: 0 <= k < |items| ==> r[k] == items[k].stock.symbol
  {
    if items == [] then [] else Symbols(items[..|items| - 1]) + [items[|items| - 1].stock.symbol]
  }

  function MemberSymbols(ms: seq<Member>): (r: seq<Option<string>>)
    ensures |r| == |ms| && forall k :: 0 <= k < |ms| ==> r[k] == ms[k].symbol
  {
    if ms == [] then [] else MemberSymbols(ms[..|ms| - 1]) + [ms[|ms| - 1].symbol]
  }

  /** What force_run answers: the run to process, if any, and the included and the missing symbols. */
  datatype Forced = Forced(runId: Option<int>, included: seq<Option<string>>, missing: seq<Option<string>>)

  /** The answers force_run gives before it writes anything; None when it goes on to upsert the run. */
  function ForceRefusal(stocks: seq<Member>, available: seq<Item>, missing: seq<Member>, allowPartial: bool): (r: Option<Forced>)
    ensures stocks == [] ==> r == Some(Forced(None, [], []))
    ensures r.Some? ==> r.value.runId.None?
  {
    if stocks == [] then Some(Forced(None, [], []))
    else if !allowPartial && missing != [] then Some(Forced(None, Symbols(available), MemberSymbols(missing)))
    else if available == [] then Some(Forced(None, [], MemberSymbols(missing)))
    else None
  }

  /**
   * Without partial mode a run is forced only when every stock of the
   * group has an available transcript for the period; with it, only when
   * at least one does.
   */
  lemma ForcedOnlyWhenReady(db: Database, groupId: int, quarter: string, year: int, allowPartial: bool)
    ensures var stocks := Members(db.stocks, db.groupStocks, groupId);
      var available := AvailableOf(db.transcripts, db.nextId, stocks, quarter, year);
      var missing := MissingOf(db.transcripts, db.nextId, stocks, quarter, year);
      ForceRefusal(stocks, available, missing, allowPartial).None? <==>
        && stocks != []
        && (!allowPartial ==> forall m :: m in stocks ==> FirstAvailable(db.transcripts, db.nextId, m.stockId, quarter, year).Some?)
        && (exists m :: m in stocks && FirstAvailable(db.transcripts, db.nextId, m.stockId, quarter, year).Some?)
  {
    var stocks := Members(db.stocks, db.groupStocks, groupId);
    var available := AvailableOf(db.transcripts, db.nextId, stocks, quarter, year);
    var missing := MissingOf(db.transcripts, db.nextId, stocks, quarter, year);
    CollectPartitions(db.transcripts, db.nextId, stocks, quarter, year);
    if missing != [] {
      assert missing[0] in missing;
    }
    if available != [] {
      assert available[0].stock in stocks;
    }
  }

  /** The upsert of force_run: a new pending run, or the existing one set back to `pending` (error_message kept). */
  function Forcing(r: GroupRun): GroupRun {
    r.(status := RunPending)
  }

  /** INSERT ... ON CONFLICT(group_id, quarter, year) DO UPDATE SET status = 'pending', and the id read back. */
  method UpsertPending(db: Database, key: (int, string, int)) returns (runId: int)
    requires db.Valid()
    modifies db`runs, db`nextId
    ensures db.Valid()
    ensures runId in db.runs && KeyOf(db.runs[runId]) == key && db.runs[runId].status == RunPending
    ensures var found := RunFor(old(db.runs), old(db.nextId), key);
      && (found.None? ==> runId == old(db.nextId) && db.runs == old(db.runs)[runId := NewRun(key)])
      && (found.Some? ==> runId == found.value && db.nextId == old(db.nextId)
                          && db.runs == old(db.runs)[runId := Forcing(old(db.runs[runId]))])
  {
    var found := RunFor(db.runs, db.nextId, key);
    if found.None? {
      StepRunValid(RunTable(db.runs, db.nextId, {}), key);
      runId := db.FreshId();
      db.runs := db.runs[runId := NewRun(key)];
    } else {
      runId := found.value;
      db.runs := db.runs[runId := Forcing(db.runs[runId])];
    }
  }

  /**
   * force_run: no stocks answers nothing; missing transcripts refuse the
   * run unless partial mode is on; nothing available refuses it too;
   * otherwise the period's run is upserted to `pending` and started.
   */
  method ForceRun(db: Database, groupId: int, quarter: string, year: int, allowPartial: bool) returns (f: Forced)
    requires db.Valid()
    modifies db`runs, db`nextId
    ensures db.Valid()
    ensures var stocks := Members(old(db.stocks), old(db.groupStocks), groupId);
      var available := AvailableOf(old(db.transcripts), old(db.nextId), stocks, quarter, year);
      var missing := MissingOf(old(db.transcripts), old(db.nextId), stocks, quarter, year);
      var refusal := ForceRefusal(stocks, available, missing, allowPartial);
      && (refusal.Some? ==> f == refusal.value && db.runs == old(db.runs) && db.nextId == old(db.nextId))
      && (refusal.None? ==>
            && f.runId.Some? && f.included == Symbols(available) && f.missing == MemberSymbols(missing)
            && f.runId.value in db.runs && KeyOf(db.runs[f.runId.value]) == (groupId, quarter, year)
            && db.runs[f.runId.value].status == RunPending
            && (forall id :: id in old(db.runs) && id != f.runId.value ==> id in db.runs && db.runs[id] == old(db.runs[id])))
  {
    var stocks, available, missing := CollectTranscripts(db, groupId, quarter, year);
    var refusal := ForceRefusal(stocks, available, missing, allowPartial);
    if refusal.Some? {
      return refusal.value;
    }
    var runId := UpsertPending(db, (groupId, quarter, year));
    f := Forced(Some(runId), Symbols(available), MemberSymbols(missing));
  }

  // ---------------------------------------------------------------------
  // Processing a run
  // ---------------------------------------------------------------------

  /** Python's f-string rendering of an optional text column: NULL shows as "None". */
  function Shown(s: Option<string>): string {
    if s.Some? then s.value else "None"
  }

  /**
   * `", ".join(symbols)`: a NULL symbol makes `join` raise TypeError, whose
   * text names the first offending position.
   */
  function JoinSymbols(symbols: seq<Option<string>>): (r: Result<string>)
    ensures r.Ok? <==> forall k :: 0 <= k < |symbols| ==> symbols[k].Some?
  {
    var bad := FirstNull(symbols);
    if bad < |symbols| then Err("sequence item " + NatToString(bad) + ": expected str instance, NoneType found")
    else Ok(Join(", ", seq(|symbols|, k requires 0 <= k < |symbols| => symbols[k].GetOr(""))))
  }

  function FirstNull(symbols: seq<Option<string>>): (k: nat)
    ensures k <= |symbols| && (k < |symbols| ==> symbols[k].None?)
    ensures forall j :: 0 <= j < k ==> symbols[j].Some?
  {
    if symbols == [] || symbols[0].None? then 0 else 1 + FirstNull(symbols[1..])
  }

  /** The text the loop works with: the download's, its exception message, or "" for a missing url. */
  function DownloadText(download: string -> Result<string>, url: Option<string>): string {
    if HasText(url) then
      match download(url.value)
      case Ok(text) => text
      case Err(e) => "Error extracting text: " + e
    else ""
  }

  /** `not text or text.lower().startswith("error")`. */
  predicate FetchFailed(text: string) {
    text == "" || StartsWithLower(text, "error")
  }

  /** One `parts` entry before formatting: the stock and its transcript cut to 12000 characters. */
  datatype Part = Part(stock: Member, text: string)

  /** What the download loop leaves: the parts and failed symbols, or the symbol that aborted the run. */
  datatype Gathered = Gathered(parts: seq<Part>, failed: seq<Option<string>>) | Aborted(symbol: Option<string>)

  /** The download loop of `_process_run` over the first items. */
  function Gather(items: seq<Item>, allowPartial: bool, download: string -> Result<string>): (g: Gathered)
    ensures !allowPartial ==> g.Aborted? || g.failed == []
    ensures allowPartial ==> g.Gathered?
    ensures g.Gathered? ==> |g.parts| + |g.failed| == |items|
    decreases |items|
  {
    if items == [] then Gathered([], [])
    else GatherStep(Gather(items[..|items| - 1], allowPartial, download), items[|items| - 1], allowPartial, download)
  }

  /** One iteration of the download loop; nothing happens after an abort. */
  function GatherStep(before: Gathered, item: Item, allowPartial: bool, download: string -> Result<string>): Gathered {
    var text := DownloadText(download, item.sourceUrl);
    if before.Aborted? then before
    else if FetchFailed(text) then
      if allowPartial then Gathered(before.parts, before.failed + [item.stock.symbol]) else Aborted(item.stock.symbol)
    else Gathered(before.parts + [Part(item.stock, Take(text, TruncateAt))], before.failed)
  }

  lemma GatherPrefix(items: seq<Item>, i: nat, allowPartial: bool, download: string -> Result<string>)
    requires i < |items|
    ensures Gather(items[..i + 1], allowPartial, download) == GatherStep(Gather(items[..i], allowPartial, download), items[i], allowPartial, download)
  {
    assert items[..i + 1][..i] == items[..i];
  }

  /** A part taken from the items: at most 12000 characters from the start of a download that did not fail. */
  ghost predicate PartFrom(items: seq<Item>, p: Part, download: string -> Result<string>) {
    exists i :: 0 <= i < |items| && items[i].stock == p.stock && PartOf(items[i], p, download)
  }

  predicate PartOf(item: Item, p: Part, download: string -> Result<string>) {
    var text := DownloadText(download, item.sourceUrl);
    !FetchFailed(text) && p.text == Take(text, TruncateAt) && |p.text| <= TruncateAt
  }

  /**
   * Every part holds at most 12000 characters of its transcript, taken from
   * the start of a download that did not fail.
   */
  lemma {:induction false} GatheredPartsTruncated(items: seq<Item>, allowPartial: bool, download: string -> Result<string>)
    ensures var g := Gather(items, allowPartial, download);
      g.Gathered? ==> forall p :: p in g.parts ==> PartFrom(items, p, download)
    decreases |items|
  {
    if items != [] {
      var init := items[..|items| - 1];
      var last := items[|items| - 1];
      GatheredPartsTruncated(init, allowPartial, download);
      var g0 := Gather(init, allowPartial, download);
      var g := Gather(items, allowPartial, download);
      if g.Gathered? {
        assert g0.Gathered?;
        forall p | p in g.parts
          ensures PartFrom(items, p, download)
        {
          if p in g0.parts {
            assert PartFrom(init, p, download);
            var i :| 0 <= i < |init| && init[i].stock == p.stock && PartOf(init[i], p, download);
            assert items[i] == init[i];
          } else {
            assert p == Part(last.stock, Take(DownloadText(download, last.sourceUrl), TruncateAt));
            assert items[|items| - 1] == last;
          }
        }
      }
    }
  }

  /** The loop over `available_transcripts` with its `parts` and `failed_downloads` lists. */
  method GatherParts(items: seq<Item>, allowPartial: bool, download: string -> Result<string>) returns (g: Gathered)
    ensures g == Gather(items, allowPartial, download)
  {
    var parts: seq<Part> := [];
    var failed: seq<Option<string>> := [];
    var i := 0;
    while i < |items|
      invariant 0 <= i <= |items|
      invariant Gather(items[..i], allowPartial, download) == Gathered(parts, failed)
    {
      GatherPrefix(items, i, allowPartial, download);
      var item := items[i];
      var text := DownloadText(download, item.sourceUrl);
      if FetchFailed(text) && !allowPartial {
        AbortedStays(items, i + 1, allowPartial, download);
        return Aborted(item.stock.symbol);
      }
      if FetchFailed(text) {
        failed := failed + [item.stock.symbol];
      } else {
        parts := parts + [Part(item.stock, Take(text, TruncateAt))];
      }
      i := i + 1;
    }
    assert items[..i] == items;
    g := Gathered(parts, failed);
  }

  /** After an abort the later items are not looked at. */
  lemma {:induction false} AbortedStays(items: seq<Item>, n: nat, allowPartial: bool, download: string -> Result<string>)
    requires n <= |items| && Gather(items[..n], allowPartial, download).Aborted?
    ensures Gather(items, allowPartial, download) == Gather(items[..n], allowPartial, download)
    decreases |items| - n
  {
    if n < |items| {
      assert items[..n + 1][..n] == items[..n];
      AbortedStays(items, n + 1, allowPartial, download);
    } else {
      assert items[..n] == items;
    }
  }

  /** How a run ends: an error message, or the stored result and what may overwrite it afterwards. */
  datatype RunEnd =
    | RunFailed(message: string)
    | RunSucceeded(prompt: string, output: string, provider: string, modelId: Option<string>,
                   skipped: Option<string>, renderError: Option<string>)

  function Unexpected(e: string): string {
    "Unexpected error: " + e
  }

  /** The message for a run whose stocks are missing transcripts (joining a NULL symbol raises). */
  function MissingMessage(missing: seq<Member>): string {
    match JoinSymbols(MemberSymbols(missing))
    case Ok(s) => "Missing transcripts for: " + s
    case Err(e) => Unexpected(e)
  }

  /** The message for a run none of whose downloads gave text. */
  function SkippedMessage(failed: seq<Option<string>>): string {
    if failed == [] then NothingProcessed
    else match JoinSymbols(failed)
      case Ok(s) => "Skipped transcripts for: " + s
      case Err(e) => Unexpected(e)
  }

  /** The checks of `_process_run` before any download, each ending the run with its message. */
  function Refusal(group: Option<Group>, stocks: seq<Member>, available: seq<Item>, missing: seq<Member>,
                   allowPartial: bool): (r: Option<string>)
    ensures r.None? ==> group.Some? && group.value.active && HasText(group.value.deepResearchPrompt)
    ensures r.None? ==> stocks != [] && available != [] && (allowPartial || missing == [])
  {
    if group.None? || !group.value.active || !HasText(group.value.deepResearchPrompt) then Some(NoPrompt)
    else if stocks == [] then Some(NoStocks)
    else if !allowPartial && missing != [] then Some(MissingMessage(missing))
    else if available == [] then Some(NothingAvailable)
    else None
  }

  /**
   * The rest of `_process_run` once the downloads are done. Rendering the
   * article after the result is stored joins every member's symbol, so a
   * NULL symbol there turns the finished run into an error.
   */
  function Conclude(prompt: string, stocks: seq<Member>, g: Gathered, llm: CallSites.LlmOutcome): RunEnd {
    match g
    case Aborted(symbol) => RunFailed("Transcript fetch failed for " + Shown(symbol))
    case Gathered(parts, failed) =>
      if parts == [] then RunFailed(SkippedMessage(failed))
      else
        match CallSites.CallGenerate(CallSites.GenerateCall, llm)
        case Raised(e) => RunFailed("LLM generation failed: " + e)
        case Generated(output, provider, modelId) =>
          var skipped := JoinSymbols(failed);
          if failed != [] && skipped.Err? then RunFailed(Unexpected(skipped.error))
          else
            var render := JoinSymbols(MemberSymbols(stocks));
            RunSucceeded(prompt, output, provider, modelId, if failed == [] then None else Some(skipped.value),
                         if render.Err? then Some(Unexpected(render.error)) else None)
  }

  /**
   * The decisions of `_process_run`, from the group row, the collected
   * transcripts, the downloads and the model call. A run succeeds only for
   * an active group with a prompt, some stocks, some available transcript,
   * no missing one unless partial runs are allowed, a download that gave
   * text and a model call that answered; its stored prompt is the group's.
   */
  function RunEndOf(group: Option<Group>, stocks: seq<Member>, available: seq<Item>, missing: seq<Member>,
                    allowPartial: bool, download: string -> Result<string>, llm: CallSites.LlmOutcome): (e: RunEnd)
    ensures e.RunSucceeded? ==>
      && group.Some? && group.value.active && HasText(group.value.deepResearchPrompt)
      && e.prompt == group.value.deepResearchPrompt.value
      && stocks != [] && available != [] && (allowPartial || missing == [])
      && Gather(available, allowPartial, download).Gathered? && Gather(available, allowPartial, download).parts != []
      && CallSites.CallGenerate(CallSites.GenerateCall, llm).Generated?
  {
    var refusal := Refusal(group, stocks, available, missing, allowPartial);
    if refusal.Some? then RunFailed(refusal.value)
    else Conclude(group.value.deepResearchPrompt.value, stocks, Gather(available, allowPartial, download), llm)
  }

  /** The run row after `_process_run`. */
  function Finished(r: GroupRun, e: RunEnd): (f: GroupRun)
    ensures KeyOf(f) == KeyOf(r)
    ensures f.status == RunDone || f.status == RunError
  {
    match e
    case RunFailed(m) => r.(status := RunError, errorMessage := Some(m))
    case RunSucceeded(prompt, output, provider, modelId, skipped, renderError) =>
      var stored := r.(status := RunDone, promptSnapshot := Some(prompt), output := Some(output),
                       provider := Some(provider), modelId := modelId, errorMessage := skipped);
      if renderError.Some? then stored.(status := RunError, errorMessage := renderError) else stored
  }

  /**
   * Without partial mode a run ends `done` only when every stock of the
   * group had an available transcript and every download gave text; a run
   * always leaves `in_progress`.
   */
  lemma DoneNeedsEveryTranscript(ts: map<int, Transcript>, hi: int, group: Option<Group>, stocks: seq<Member>,
                                  r: GroupRun, quarter: string, year: int,
                                  download: string -> Result<string>, llm: CallSites.LlmOutcome)
    ensures var available := AvailableOf(ts, hi, stocks, quarter, year);
      var f := Finished(r, RunEndOf(group, stocks, available, MissingOf(ts, hi, stocks, quarter, year), false, download, llm));
      && f.status != RunInProgress
      && (f.status == RunDone ==>
            && stocks != []
            && (forall m :: m in stocks ==> FirstAvailable(ts, hi, m.stockId, quarter, year).Some?)
            && (forall k :: 0 <= k < |available| ==> !FetchFailed(DownloadText(download, available[k].sourceUrl)))
            && f.errorMessage.None?)
  {
    var available := AvailableOf(ts, hi, stocks, quarter, year);
    MissingExactly(ts, hi, stocks, quarter, year);
    if Gather(available, false, download).Gathered? {
      NoFailureWithoutPartial(available, download);
    }
  }

  /** Without partial mode a loop that ran to the end met no failed download. */
  lemma {:induction false} NoFailureWithoutPartial(items: seq<Item>, download: string -> Result<string>)
    requires Gather(items, false, download).Gathered?
    ensures forall k :: 0 <= k < |items| ==> !FetchFailed(DownloadText(download, items[k].sourceUrl))
    decreases |items|
  {
    if items != [] {
      var init := items[..|items| - 1];
      var last := items[|items| - 1];
      var before := Gather(init, false, download);
      assert Gather(items, false, download) == GatherStep(before, last, false, download);
      assert before.Gathered?;
      assert !FetchFailed(DownloadText(download, last.sourceUrl));
      NoFailureWithoutPartial(init, download);
      forall k | 0 <= k < |items|
        ensures !FetchFailed(DownloadText(download, items[k].sourceUrl))
      {
        if k < |init| {
          assert items[k] == init[k];
        }
      }
    }
  }

  /** `update_status`: the UPDATE ... WHERE id = run_id, which changes nothing for an unknown id. */
  function WithStatus(runs: map<int, GroupRun>, runId: int, status: RunStatus, error: Option<string>): map<int, GroupRun> {
    if runId in runs then runs[runId := runs[runId].(status := status, errorMessage := error)] else runs
  }

  /** The final writes replace everything marking the run `in_progress` wrote. */
  lemma FinishedIgnoresStart(runs: map<int, GroupRun>, runId: int, e: RunEnd)
    requires runId in runs
    ensures Finished(WithStatus(runs, runId, RunInProgress, None)[runId], e) == Finished(runs[runId], e)
  { }

  /** `update_status(run_id, "in_progress")`. */
  method MarkInProgress(db: Database, runId: int)
    requires db.Valid()
    modifies db`runs
    ensures db.Valid()
    ensures db.runs == WithStatus(old(db.runs), runId, RunInProgress, None)
  {
    if runId in db.runs {
      db.UpdateRun(runId, db.runs[runId].(status := RunInProgress, errorMessage := None));
    }
  }

  /** The last writes of `_process_run`, which replace the status and error message it set first. */
  method FinishRun(db: Database, runId: int, e: RunEnd)
    requires db.Valid()
    modifies db`runs
    ensures db.Valid()
    ensures runId in old(db.runs) ==> db.runs == old(db.runs)[runId := Finished(old(db.runs[runId]), e)]
    ensures runId !in old(db.runs) ==> db.runs == old(db.runs)
  {
    if runId in db.runs {
      db.UpdateRun(runId, Finished(db.runs[runId], e));
    }
  }

  /** What `_process_run` decides, before it writes the outcome. */
  method DecideRun(db: Database, groupId: int, quarter: string, year: int, allowPartial: bool,
                   download: string -> Result<string>, llm: CallSites.LlmOutcome) returns (e: RunEnd)
    ensures var stocks := Members(db.stocks, db.groupStocks, groupId);
      e == RunEndOf(if groupId in db.groups then Some(db.groups[groupId]) else None, stocks,
                    AvailableOf(db.transcripts, db.nextId, stocks, quarter, year),
                    MissingOf(db.transcripts, db.nextId, stocks, quarter, year), allowPartial, download, llm)
  {
    var group := if groupId in db.groups then Some(db.groups[groupId]) else None;
    var stocks, available, missing := CollectTranscripts(db, groupId, quarter, year);
    var refusal := Refusal(group, stocks, available, missing, allowPartial);
    if refusal.Some? {
      e := RunFailed(refusal.value);
    } else {
      var gathered := GatherParts(available, allowPartial, download);
      e := Conclude(group.value.deepResearchPrompt.value, stocks, gathered, llm);
    }
  }

  /**
   * _process_run: `download` is what downloading and extracting a url
   * yields (its text or the exception's message), `llm` what the model
   * call answers. The run is first marked `in_progress` and then ends
   * `done` or `error`; an unknown run id matches no row. Sending the
   * finished article by email swallows every failure and changes no row.
   */
  method ProcessRun(db: Database, runId: int, groupId: int, quarter: string, year: int, allowPartial: bool,
                    download: string -> Result<string>, llm: CallSites.LlmOutcome) returns (e: RunEnd)
    requires db.Valid()
    modifies db`runs
    ensures db.Valid()
    ensures var stocks := Members(db.stocks, db.groupStocks, groupId);
      e == RunEndOf(if groupId in db.groups then Some(db.groups[groupId]) else None, stocks,
                    AvailableOf(db.transcripts, db.nextId, stocks, quarter, year),
                    MissingOf(db.transcripts, db.nextId, stocks, quarter, year), allowPartial, download, llm)
    ensures runId in old(db.runs) ==> db.runs == old(db.runs)[runId := Finished(old(db.runs[runId]), e)]
    ensures runId !in old(db.runs) ==> db.runs == old(db.runs)
  {
    MarkInProgress(db, runId);
    e := DecideRun(db, groupId, quarter, year, allowPartial, download, llm);
    if runId in old(db.runs) {
      FinishedIgnoresStart(old(db.runs), runId, e);
    }
    FinishRun(db, runId, e);
  }
}
