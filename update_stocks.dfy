/**
 * The daily stock update (scripts/update_stocks.py): new ISINs from the
 * NSE list are inserted, then the BSE list inserts its own new ISINs and
 * fills in a missing BSE code or symbol of known ones. The set of known
 * ISINs is shared by both passes and grows with every insert.
 *
 * A CSV row is a list of optional cells: a cell the row does not have is
 * `None`, and reading it raises, which the script counts as an error for
 * that row.
 */
module UpdateStocks {
  import opened Wrappers
  import opened Text
  import opened StockTable

  /** A row of the NSE list: ISIN NUMBER, SYMBOL, NAME OF COMPANY. */
  datatype NseRow = NseRow(isin: Option<string>, symbol: Option<string>, name: Option<string>)

  /** A row of the BSE list: ISIN No, Security Code, Security Id, Issuer Name. */
  datatype BseRow = BseRow(isin: Option<string>, code: Option<string>, securityId: Option<string>,
                           name: Option<string>)

  /** The state of a pass: the table, the known ISINs and the pass's counters. */
  datatype Tally = Tally(stocks: map<string, Stock>, known: set<string>, added: nat, updated: nat, errors: nat)

  /** The table and the known set agree, as they do when the set is read from the table. */
  predicate InSync(t: Tally) {
    t.known == t.stocks.Keys
  }

  /** Every row already in `before` is still there, unchanged. */
  predicate Untouched(before: map<string, Stock>, after: map<string, Stock>) {
    forall i :: i in before ==> i in after && after[i] == before[i]
  }

  /**
   * Every row already in `before` is still there with the same name, and a
   * BSE code or symbol it had is kept.
   */
  predicate NothingOverwritten(before: map<string, Stock>, after: map<string, Stock>) {
    forall i :: i in before ==>
      && i in after
      && after[i].name == before[i].name
      && (!Missing(before[i].bseCode) ==> after[i].bseCode == before[i].bseCode)
      && (!Missing(before[i].symbol) ==> after[i].symbol == before[i].symbol)
  }

  // ---------------------------------------------------------------------
  // update_from_nse
  // ---------------------------------------------------------------------

  /** An NSE row with its cells stripped: an unknown, non-empty ISIN is inserted with its symbol and name. */
  function NseApply(t: Tally, isin: string, symbol: string, name: string): (r: Tally)
    ensures Untouched(t.stocks, r.stocks) && t.known <= r.known
    ensures r.updated == t.updated && r.errors <= t.errors + 1
    ensures r.added == t.added + |r.known - t.known| && |r.known - t.known| <= 1
    ensures InSync(t) ==> InSync(r) && r.errors == t.errors
    ensures isin == "" ==> r == t
    ensures r.added > t.added ==> isin != "" && isin !in t.stocks && r.stocks == t.stocks[isin := Stock(Some(symbol), name, None)]
  {
    if isin == "" || isin in t.known then t
    else if isin in t.stocks then t.(errors := t.errors + 1)
    else
      assert t.known + {isin} - t.known == {isin};
      t.(stocks := t.stocks[isin := Stock(Some(symbol), name, None)], known := t.known + {isin}, added := t.added + 1)
  }

  /** One NSE row: a row with a missing cell is an error, any other is applied stripped. */
  function NseStep(t: Tally, row: NseRow): Tally {
    if row.isin.None? || row.symbol.None? || row.name.None? then t.(errors := t.errors + 1)
    else NseApply(t, Strip(row.isin.value), Strip(row.symbol.value), Strip(row.name.value))
  }

  /** The NSE rows in file order. */
  function NseAll(t: Tally, rows: seq<NseRow>): Tally
    decreases |rows|
  {
    if rows == [] then t else NseStep(NseAll(t, rows[..|rows| - 1]), rows[|rows| - 1])
  }

  /**
   * Over the whole NSE list: rows already in the table are left alone, and
   * the count of new stocks is the number of rows the table gained, so no
   * ISIN was inserted twice.
   */
  lemma {:induction false} NseAllKeeps(t: Tally, rows: seq<NseRow>)
    requires InSync(t)
    ensures var r := NseAll(t, rows);
      InSync(r) && Untouched(t.stocks, r.stocks) && r.updated == t.updated
      && r.added == t.added + (|r.stocks| - |t.stocks|) && |t.stocks| <= |r.stocks|
  {
    if rows != [] {
      var mid := NseAll(t, rows[..|rows| - 1]);
      NseAllKeeps(t, rows[..|rows| - 1]);
      var r := NseStep(mid, rows[|rows| - 1]);
      assert r.known - mid.known == r.stocks.Keys - mid.stocks.Keys;
      CardGrowth(mid.stocks.Keys, r.stocks.Keys);
    }
  }

  /** The size of a superset is the size of the subset plus what it adds. */
  lemma CardGrowth(a: set<string>, b: set<string>)
    requires a <= b
    ensures |b| == |a| + |b - a|
  {
    assert b == a + (b - a);
  }

  // ---------------------------------------------------------------------
  // update_from_bse
  // ---------------------------------------------------------------------

  /** A known stock needs a write when its BSE code is missing, or its symbol is and the list has one. */
  predicate NeedsFill(s: Stock, securityId: string) {
    Missing(s.bseCode) || (Missing(s.symbol) && securityId != "")
  }

  /** The UPDATE of a known stock: only the missing fields are filled. */
  function Filled(s: Stock, code: string, securityId: string): (r: Stock)
    ensures r.name == s.name
    ensures r.bseCode == (if Missing(s.bseCode) then Some(code) else s.bseCode)
    ensures r.symbol == (if Missing(s.symbol) && securityId != "" then Some(securityId) else s.symbol)
  {
    s.(bseCode := if Missing(s.bseCode) then Some(code) else s.bseCode,
       symbol := if Missing(s.symbol) && securityId != "" then Some(securityId) else s.symbol)
  }

  /**
   * A BSE row with its cells stripped: a known ISIN has its missing fields
   * filled (and counts as updated only when there was one to fill); an
   * unknown one is inserted with the Security Id as its symbol.
   */
  function BseApply(t: Tally, isin: string, code: string, securityId: string, name: string): (r: Tally)
    ensures NothingOverwritten(t.stocks, r.stocks) && t.known <= r.known
    ensures r.errors <= t.errors + 1 && r.updated <= t.updated + 1
    ensures r.added == t.added + |r.known - t.known| && |r.known - t.known| <= 1
    ensures InSync(t) ==> InSync(r) && r.errors == t.errors
    ensures isin == "" ==> r == t
    ensures r.updated > t.updated ==>
      isin in t.stocks && NeedsFill(t.stocks[isin], securityId)
      && r.stocks == t.stocks[isin := Filled(t.stocks[isin], code, securityId)]
    ensures r.added > t.added ==>
      isin != "" && isin !in t.stocks && r.stocks == t.stocks[isin := Stock(Some(securityId), name, Some(code))]
  {
    if isin == "" then t
    else if isin in t.known then
      if isin !in t.stocks then t
      else if NeedsFill(t.stocks[isin], securityId) then
        t.(stocks := t.stocks[isin := Filled(t.stocks[isin], code, securityId)], updated := t.updated + 1)
      else t
    else if isin in t.stocks then t.(errors := t.errors + 1)
    else
      assert t.known + {isin} - t.known == {isin};
      t.(stocks := t.stocks[isin := Stock(Some(securityId), name, Some(code))],
         known := t.known + {isin}, added := t.added + 1)
  }

  /** One BSE row: a row with a missing cell is an error, any other is applied stripped. */
  function BseStep(t: Tally, row: BseRow): Tally {
    if row.isin.None? || row.code.None? || row.securityId.None? || row.name.None? then t.(errors := t.errors + 1)
    else BseApply(t, Strip(row.isin.value), Strip(row.code.value), Strip(row.securityId.value), Strip(row.name.value))
  }

  /** The BSE rows in file order. */
  function BseAll(t: Tally, rows: seq<BseRow>): Tally
    decreases |rows|
  {
    if rows == [] then t else BseStep(BseAll(t, rows[..|rows| - 1]), rows[|rows| - 1])
  }

  /**
   * Over the whole BSE list: no name, BSE code or symbol already set is
   * overwritten, and the count of new stocks is the number of rows the
   * table gained.
   */
  lemma {:induction false} BseAllKeeps(t: Tally, rows: seq<BseRow>)
    requires InSync(t)
    ensures var r := BseAll(t, rows);
      InSync(r) && NothingOverwritten(t.stocks, r.stocks)
      && r.added == t.added + (|r.stocks| - |t.stocks|) && |t.stocks| <= |r.stocks|
  {
    if rows != [] {
      var mid := BseAll(t, rows[..|rows| - 1]);
      BseAllKeeps(t, rows[..|rows| - 1]);
      var r := BseStep(mid, rows[|rows| - 1]);
      assert r.known - mid.known == r.stocks.Keys - mid.stocks.Keys;
      CardGrowth(mid.stocks.Keys, r.stocks.Keys);
    }
  }

  // ---------------------------------------------------------------------
  // The passes over the database
  // ---------------------------------------------------------------------

  /** update_from_nse over values: its counters start at zero, and a list it cannot read changes nothing. */
  function NsePass(stocks: map<string, Stock>, known: set<string>, rows: seq<NseRow>, readable: bool): Tally {
    if readable then NseAll(Tally(stocks, known, 0, 0, 0), rows) else Tally(stocks, known, 0, 0, 0)
  }

  /** update_from_bse over values, in the same way. */
  function BsePass(stocks: map<string, Stock>, known: set<string>, rows: seq<BseRow>, readable: bool): Tally {
    if readable then BseAll(Tally(stocks, known, 0, 0, 0), rows) else Tally(stocks, known, 0, 0, 0)
  }

  /** `update_from_nse`: nothing happens when the file cannot be read. */
  method UpdateFromNse(db: StockDb, known: set<string>, rows: seq<NseRow>, readable: bool)
    returns (known': set<string>, newStocks: nat, errors: nat)
    modifies db
    ensures !readable ==> db.stocks == old(db.stocks) && known' == known && newStocks == 0 && errors == 0
    ensures readable ==>
      var r := NseAll(Tally(old(db.stocks), known, 0, 0, 0), rows);
      db.stocks == r.stocks && known' == r.known && newStocks == r.added && errors == r.errors
  {
    if !readable {
      return known, 0, 0;
    }
    known', newStocks, errors := known, 0, 0;
    var k := 0;
    while k < |rows|
      invariant 0 <= k <= |rows|
      invariant Tally(db.stocks, known', newStocks, 0, errors) == NseAll(Tally(old(db.stocks), known, 0, 0, 0), rows[..k])
    {
      assert rows[..k + 1][..k] == rows[..k];
      var row := rows[k];
      if row.isin.None? || row.symbol.None? || row.name.None? {
        errors := errors + 1;
      } else {
        var isin := Strip(row.isin.value);
        if isin != "" && isin !in known' {
          if isin in db.stocks {
            errors := errors + 1;
          } else {
            db.stocks := db.stocks[isin := Stock(Some(Strip(row.symbol.value)), Strip(row.name.value), None)];
            newStocks := newStocks + 1;
            known' := known' + {isin};
          }
        }
      }
      k := k + 1;
    }
    assert rows[..k] == rows;
  }

  /** `update_from_bse`: nothing happens when the file cannot be read. */
  method UpdateFromBse(db: StockDb, known: set<string>, rows: seq<BseRow>, readable: bool)
    returns (known': set<string>, newStocks: nat, updated: nat, errors: nat)
    modifies db
    ensures !readable ==> db.stocks == old(db.stocks) && known' == known && newStocks == 0 && updated == 0 && errors == 0
    ensures readable ==>
      var r := BseAll(Tally(old(db.stocks), known, 0, 0, 0), rows);
      db.stocks == r.stocks && known' == r.known && newStocks == r.added && updated == r.updated && errors == r.errors
  {
    if !readable {
      return known, 0, 0, 0;
    }
    known', newStocks, updated, errors := known, 0, 0, 0;
    var k := 0;
    while k < |rows|
      invariant 0 <= k <= |rows|
      invariant Tally(db.stocks, known', newStocks, updated, errors)
        == BseAll(Tally(old(db.stocks), known, 0, 0, 0), rows[..k])
    {
      assert rows[..k + 1][..k] == rows[..k];
      known', newStocks, updated, errors := BseRowInto(db, known', newStocks, updated, errors, rows[k]);
      k := k + 1;
    }
    assert rows[..k] == rows;
  }

  /** The body of the BSE loop, for one row. */
  method BseRowInto(db: StockDb, known: set<string>, newStocks: nat, updated: nat, errors: nat, row: BseRow)
    returns (known': set<string>, newStocks': nat, updated': nat, errors': nat)
    modifies db
    ensures Tally(db.stocks, known', newStocks', updated', errors')
      == BseStep(Tally(old(db.stocks), known, newStocks, updated, errors), row)
  {
    known', newStocks', updated', errors' := known, newStocks, updated, errors;
    if row.isin.None? || row.code.None? || row.securityId.None? || row.name.None? {
      errors' := errors + 1;
      return;
    }
    var isin := Strip(row.isin.value);
    var code := Strip(row.code.value);
    var securityId := Strip(row.securityId.value);
    if isin == "" {
      return;
    }
    if isin in known {
      if isin in db.stocks {
        var current := db.stocks[isin];
        var fields := 0;
        var next := current;
        if Missing(current.bseCode) {
          next := next.(bseCode := Some(code));
          fields := fields + 1;
        }
        if Missing(current.symbol) && securityId != "" {
          next := next.(symbol := Some(securityId));
          fields := fields + 1;
        }
        if fields > 0 {
          db.stocks := db.stocks[isin := next];
          updated' := updated + 1;
        }
      }
    } else if isin in db.stocks {
      errors' := errors + 1;
    } else {
      db.stocks := db.stocks[isin := Stock(Some(securityId), Strip(row.name.value), Some(code))];
      newStocks' := newStocks + 1;
      known' := known + {isin};
    }
  }

  /** What `main` logs. */
  datatype Summary = Summary(before: nat, after: nat, nseNew: nat, bseNew: nat, bseUpdated: nat, errors: nat)

  /**
   * `main`: the known set is read from the table, the NSE pass runs, then
   * the BSE pass with the grown set. The final count is the starting count
   * plus the new stocks of both passes, and no stock already in the table
   * loses its name, BSE code or symbol.
   */
  method DailyUpdate(db: StockDb, nseRows: seq<NseRow>, nseReadable: bool, bseRows: seq<BseRow>, bseReadable: bool)
    returns (s: Summary)
    modifies db
    ensures s.after == s.before + s.nseNew + s.bseNew
    ensures s.before == |old(db.stocks)| && s.after == |db.stocks|
    ensures NothingOverwritten(old(db.stocks), db.stocks)
    ensures var nse := NsePass(old(db.stocks), old(db.stocks).Keys, nseRows, nseReadable);
      var bse := BsePass(nse.stocks, nse.known, bseRows, bseReadable);
      && db.stocks == bse.stocks
      && s == Summary(|old(db.stocks)|, |bse.stocks|, nse.added, bse.added, bse.updated, nse.errors + bse.errors)
  {
    var known := db.stocks.Keys;
    var before := |known|;
    ghost var start := Tally(db.stocks, known, 0, 0, 0);
    NseAllKeeps(start, nseRows);
    var nseNew, nseErrors, bseNew, bseUpdated, bseErrors;
    known, nseNew, nseErrors := UpdateFromNse(db, known, nseRows, nseReadable);
    ghost var mid := Tally(db.stocks, known, 0, 0, 0);
    BseAllKeeps(mid, bseRows);
    known, bseNew, bseUpdated, bseErrors := UpdateFromBse(db, known, bseRows, bseReadable);
    s := Summary(before, |db.stocks|, nseNew, bseNew, bseUpdated, nseErrors + bseErrors);
  }
}
