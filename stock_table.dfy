/**
 * The `stocks` table the loader scripts fill (scripts/init_database.py,
 * scripts/update_stocks.py): one row per ISIN, with the NSE symbol, the
 * company name and the BSE security code. The ISIN column is unique, which
 * is what `INSERT OR IGNORE` and the `WHERE isin_number = ?` lookups rely
 * on, so the table is a map from ISIN to the rest of the row.
 */
module StockTable {
  import opened Wrappers

  /** A row of `stocks` without its ISIN (the key), id and timestamps. */
  datatype Stock = Stock(symbol: Option<string>, name: string, bseCode: Option<string>)

  /** Python's `not value` on a column: NULL or the empty string. */
  predicate Missing(v: Option<string>) {
    v.None? || v == Some("")
  }

  /** The database the scripts connect to. */
  class StockDb {
    var stocks: map<string, Stock>

    constructor(stocks: map<string, Stock>)
      ensures this.stocks == stocks
    {
      this.stocks := stocks;
    }
  }
}
