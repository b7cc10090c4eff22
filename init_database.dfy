/**
 * The initial load (scripts/init_database.py): the NSE list is inserted
 * with INSERT OR IGNORE, then the BSE list sets the BSE code of stocks
 * that lack one and inserts the ISINs it alone lists. Every row is counted
 * exactly once, as inserted, updated, skipped or an error.
 *
 * Rows are lists of optional cells, as in the daily update: a missing cell
 * raises when read, and the script counts the row as an error.
 */
module InitDatabase {
  import opened Wrappers
  import opened Text
  import opened StockTable

  /** A row of EQUITY_L.csv: ISIN NUMBER, SYMBOL, NAME OF COMPANY. */
  datatype NseRow = NseRow(isin: Option<string>, symbol: Option<string>, name: Option<string>)

  /** A row of Equity.csv as this script reads it: ISIN No, Security Code, Issuer Name. */
  datatype BseRow = BseRow(isin: Option<string>, code: Option<string>, name: Option<string>)

  /** The table and the counters of a load. */
  datatype Load = Load(stocks: map<string, Stock>, inserted: nat, updated: nat, skipped: nat, errors: nat)

  /** How many rows a load has counted so far. */
  function Counted(l: Load): nat {
    l.inserted + l.updated + l.skipped + l.errors
  }

  /** Every stock of `before` is still there with its name and symbol. */
  predicate NamesKept(before: map<string, Stock>, after: map<string, Stock>) {
    forall i :: i in before ==> i in after && after[i].name == before[i].name && after[i].symbol == before[i].symbol
  }

  // ---------------------------------------------------------------------
  // load_nse_data
  // ---------------------------------------------------------------------

  /**
   * An NSE row with its cells stripped: an empty ISIN is skipped; the
   * INSERT OR IGNORE writes a new ISIN and is ignored for a known one.
   */
  function NseApply(l: Load, isin: string, symbol: string, name: string): (r: Load)
    ensures Counted(r) == Counted(l) + 1 && r.errors == l.errors && r.updated == l.updated
    ensures isin == "" ==> r == l.(skipped := l.skipped + 1)
    ensures isin in l.stocks ==> r == l.(skipped := l.skipped + 1)
    ensures isin != "" && isin !in l.stocks ==>
      r.inserted == l.inserted + 1 && r.stocks == l.stocks[isin := Stock(Some(symbol), name, None)]
  {
    if isin == "" || isin in l.stocks then l.(skipped := l.skipped + 1)
    else l.(stocks := l.stocks[isin := Stock(Some(symbol), name, None)], inserted := l.inserted + 1)
  }

  /** One NSE row: a row with a missing cell is an error, any other is applied stripped. */
  function NseStep(l: Load, row: NseRow): Load {
    if row.isin.None? || row.symbol.None? || row.name.None? then l.(errors := l.errors + 1)
    else NseApply(l, Strip(row.isin.value), Strip(row.symbol.value), Strip(row.name.value))
  }

  /** The NSE rows in file order. */
  function NseAll(l: Load, rows: seq<NseRow>): Load
    decreases |rows|
  {
    if rows == [] then l else NseStep(NseAll(l, rows[..|rows| - 1]), rows[|rows| - 1])
  }

  /**
   * Over the whole NSE list: each row is counted once, existing stocks are
   * untouched, and the table grows by exactly the rows counted as inserted.
   */
  lemma {:induction false} NseAllCounts(l: Load, rows: seq<NseRow>)
    ensures var r := NseAll(l, rows);
      Counted(r) == Counted(l) + |rows| && r.updated == l.updated
      && (forall i :: i in l.stocks ==> i in r.stocks && r.stocks[i] == l.stocks[i])
      && |r.stocks| == |l.stocks| + (r.inserted - l.inserted) && l.inserted <= r.inserted
  {
    if rows != [] {
      NseAllCounts(l, rows[..|rows| - 1]);
    }
  }

  // ---------------------------------------------------------------------
  // load_bse_data
  // ---------------------------------------------------------------------

  /**
   * A BSE row with its cells stripped: an empty ISIN is skipped; a known
   * ISIN gets the BSE code when it has none and is skipped otherwise; a new
   * one is inserted with code and name and no symbol.
   */
  function BseApply(l: Load, isin: string, code: string, name: string): (r: Load)
    ensures Counted(r) == Counted(l) + 1 && r.errors == l.errors
    ensures NamesKept(l.stocks, r.stocks) && l.stocks.Keys <= r.stocks.Keys
    ensures isin == "" ==> r == l.(skipped := l.skipped + 1)
    ensures isin != "" && isin in l.stocks && !Missing(l.stocks[isin].bseCode) ==> r == l.(skipped := l.skipped + 1)
    ensures isin != "" && isin in l.stocks && Missing(l.stocks[isin].bseCode) ==>
      r == l.(stocks := l.stocks[isin := l.stocks[isin].(bseCode := Some(code))], updated := l.updated + 1)
    ensures isin != "" && isin !in l.stocks ==>
      r == l.(stocks := l.stocks[isin := Stock(None, name, Some(code))], inserted := l.inserted + 1)
  {
    if isin == "" then l.(skipped := l.skipped + 1)
    else if isin in l.stocks then
      if Missing(l.stocks[isin].bseCode) then
        l.(stocks := l.stocks[isin := l.stocks[isin].(bseCode := Some(code))], updated := l.updated + 1)
      else l.(skipped := l.skipped + 1)
    else l.(stocks := l.stocks[isin := Stock(None, name, Some(code))], inserted := l.inserted + 1)
  }

  /** One BSE row: a row with a missing cell is an error, any other is applied stripped. */
  function BseStep(l: Load, row: BseRow): Load {
    if row.isin.None? || row.code.None? || row.name.None? then l.(errors := l.errors + 1)
    else BseApply(l, Strip(row.isin.value), Strip(row.code.value), Strip(row.name.value))
  }

  /** The BSE rows in file order. */
  function BseAll(l: Load, rows: seq<BseRow>): Load
    decreases |rows|
  {
    if rows == [] then l else BseStep(BseAll(l, rows[..|rows| - 1]), rows[|rows| - 1])
  }

  /**
   * Over the whole BSE list: each row is counted once, no stock loses its
   * name or symbol, a BSE code already set stays, and the table grows by
   * exactly the rows counted as inserted.
   */
  lemma {:induction false} BseAllCounts(l: Load, rows: seq<BseRow>)
    ensures var r := BseAll(l, rows);
      Counted(r) == Counted(l) + |rows| && NamesKept(l.stocks, r.stocks)
      && (forall i :: i in l.stocks && !Missing(l.stocks[i].bseCode) ==> r.stocks[i] == l.stocks[i])
      && |r.stocks| == |l.stocks| + (r.inserted - l.inserted) && l.inserted <= r.inserted
  {
    if rows != [] {
      var mid := BseAll(l, rows[..|rows| - 1]);
      BseAllCounts(l, rows[..|rows| - 1]);
      var r := BseAll(l, rows);
      forall i | i in l.stocks && !Missing(l.stocks[i].bseCode)
        ensures r.stocks[i] == l.stocks[i]
      {
        assert mid.stocks[i] == l.stocks[i];
      }
    }
  }

  // ---------------------------------------------------------------------
  // The loads over the database
  // ---------------------------------------------------------------------

  /** `load_nse_data`: all zeros and no change when the file cannot be read. */
  method LoadNseData(db: StockDb, rows: seq<NseRow>, readable: bool)
    returns (inserted: nat, skipped: nat, errors: nat)
    modifies db
    ensures !readable ==> db.stocks == old(db.stocks) && inserted == 0 && skipped == 0 && errors == 0
    ensures readable ==>
      var r := NseAll(Load(old(db.stocks), 0, 0, 0, 0), rows);
      db.stocks == r.stocks && inserted == r.inserted && skipped == r.skipped && errors == r.errors
  {
    if !readable {
      return 0, 0, 0;
    }
    inserted, skipped, errors := 0, 0, 0;
    var k := 0;
    while k < |rows|
      invariant 0 <= k <= |rows|
      invariant Load(db.stocks, inserted, 0, skipped, errors) == NseAll(Load(old(db.stocks), 0, 0, 0, 0), rows[..k])
    {
      assert rows[..k + 1][..k] == rows[..k];
      var row := rows[k];
      if row.isin.None? || row.symbol.None? || row.name.None? {
        errors := errors + 1;
      } else {
        var isin := Strip(row.isin.value);
        if isin == "" {
          skipped := skipped + 1;
        } else {
          var rowCount := if isin in db.stocks then 0 else 1;
          if rowCount > 0 {
            db.stocks := db.stocks[isin := Stock(Some(Strip(row.symbol.value)), Strip(row.name.value), None)];
            inserted := inserted + 1;
          } else {
            skipped := skipped + 1;
          }
        }
      }
      k := k + 1;
    }
    assert rows[..k] == rows;
  }

  /** `load_bse_data`: all zeros and no change when the file cannot be read. */
  method LoadBseData(db: StockDb, rows: seq<BseRow>, readable: bool)
    returns (inserted: nat, updated: nat, skipped: nat, errors: nat)
    modifies db
    ensures !readable ==> db.stocks == old(db.stocks) && inserted == 0 && updated == 0 && skipped == 0 && errors == 0
    ensures readable ==>
      var r := BseAll(Load(old(db.stocks), 0, 0, 0, 0), rows);
      db.stocks == r.stocks && inserted == r.inserted && updated == r.updated && skipped == r.skipped
      && errors == r.errors
  {
    if !readable {
      return 0, 0, 0, 0;
    }
    inserted, updated, skipped, errors := 0, 0, 0, 0;
    var k := 0;
    while k < |rows|
      invariant 0 <= k <= |rows|
      invariant Load(db.stocks, inserted, updated, skipped, errors)
        == BseAll(Load(old(db.stocks), 0, 0, 0, 0), rows[..k])
    {
      assert rows[..k + 1][..k] == rows[..k];
      var row := rows[k];
      if row.isin.None? || row.code.None? || row.name.None? {
        errors := errors + 1;
      } else {
        var isin := Strip(row.isin.value);
        var code := Strip(row.code.value);
        if isin == "" {
          skipped := skipped + 1;
        } else if isin in db.stocks {
          if Missing(db.stocks[isin].bseCode) {
            db.stocks := db.stocks[isin := db.stocks[isin].(bseCode := Some(code))];
            updated := updated + 1;
          } else {
            skipped := skipped + 1;
          }
        } else {
          db.stocks := db.stocks[isin := Stock(None, Strip(row.name.value), Some(code))];
          inserted := inserted + 1;
        }
      }
      k := k + 1;
    }
    assert rows[..k] == rows;
  }

  /** What `main` logs. */
  datatype Report = Report(total: nat, nseInserted: nat, nseSkipped: nat, nseErrors: nat,
                           bseInserted: nat, bseUpdated: nat, bseSkipped: nat, bseErrors: nat)

  /** The table `main` leaves: the NSE load on the old table, then the BSE load on its result. */
  function Loaded(s: map<string, Stock>, nseRows: seq<NseRow>, nseReadable: bool,
                  bseRows: seq<BseRow>, bseReadable: bool): map<string, Stock>
  {
    var n := if nseReadable then NseAll(Load(s, 0, 0, 0, 0), nseRows).stocks else s;
    if bseReadable then BseAll(Load(n, 0, 0, 0, 0), bseRows).stocks else n
  }

  /**
   * `main` after the schema has been created: the NSE load, then the BSE
   * load. The total is the stocks already there plus both loads' inserts,
   * and each readable file has every one of its rows counted once.
   */
  method Initialize(db: StockDb, nseRows: seq<NseRow>, nseReadable: bool, bseRows: seq<BseRow>, bseReadable: bool)
    returns (report: Report)
    modifies db
    ensures report.total == |old(db.stocks)| + report.nseInserted + report.bseInserted
    ensures nseReadable ==> report.nseInserted + report.nseSkipped + report.nseErrors == |nseRows|
    ensures bseReadable ==> report.bseInserted + report.bseUpdated + report.bseSkipped + report.bseErrors == |bseRows|
    ensures NamesKept(old(db.stocks), db.stocks)
    ensures db.stocks == Loaded(old(db.stocks), nseRows, nseReadable, bseRows, bseReadable)
  {
    NseAllCounts(Load(db.stocks, 0, 0, 0, 0), nseRows);
    var nseInserted, nseSkipped, nseErrors := LoadNseData(db, nseRows, nseReadable);
    BseAllCounts(Load(db.stocks, 0, 0, 0, 0), bseRows);
    var bseInserted, bseUpdated, bseSkipped, bseErrors := LoadBseData(db, bseRows, bseReadable);
    report := Report(|db.stocks|, nseInserted, nseSkipped, nseErrors, bseInserted, bseUpdated, bseSkipped, bseErrors);
  }
}
