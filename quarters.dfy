/**
 * Indian financial-year quarters. FY n runs from April of calendar year
 * n - 1 to March of year n: Q1 = Apr-Jun, Q2 = Jul-Sep, Q3 = Oct-Dec (all in
 * calendar year n - 1) and Q4 = Jan-Mar (calendar year n). The source
 * writes quarters as the strings "Q1".."Q4"; `Name` gives that spelling.
 *
 * `Ordinal` numbers the quarters consecutively, so that the quarter after
 * Q4 of FY n is Q1 of FY n + 1, and `Containing` is a reference definition
 * of the quarter a calendar month falls in, computed by arithmetic on month
 * numbers rather than by the source's month ranges.
 */
module Quarters {
  import opened Wrappers

  datatype Quarter = Q1 | Q2 | Q3 | Q4

  datatype FyQuarter = FyQuarter(quarter: Quarter, fy: int)

  function Index(q: Quarter): nat {
    match q
    case Q1 => 0
    case Q2 => 1
    case Q3 => 2
    case Q4 => 3
  }

  function QuarterAt(i: nat): Quarter
    requires i < 4
  {
    if i == 0 then Q1 else if i == 1 then Q2 else if i == 2 then Q3 else Q4
  }

  function Name(q: Quarter): string {
    match q
    case Q1 => "Q1"
    case Q2 => "Q2"
    case Q3 => "Q3"
    case Q4 => "Q4"
  }

  /** Reads the spelling "Q1".."Q4"; anything else is not a quarter. */
  function ParseQuarter(s: string): (r: Option<Quarter>)
    ensures r.Some? ==> Name(r.value) == s
  {
    if s == "Q1" then Some(Q1)
    else if s == "Q2" then Some(Q2)
    else if s == "Q3" then Some(Q3)
    else if s == "Q4" then Some(Q4)
    else None
  }

  lemma ParseName(q: Quarter)
    ensures ParseQuarter(Name(q)) == Some(q)
  {
  }

  /** Consecutive numbering of quarters: Q4 of FY n is followed by Q1 of FY n + 1. */
  function Ordinal(p: FyQuarter): int {
    4 * p.fy + Index(p.quarter)
  }

  function OfOrdinal(n: int): (p: FyQuarter)
    ensures Ordinal(p) == n
  {
    FyQuarter(QuarterAt(n % 4), n / 4)
  }

  lemma {:induction false} OrdinalInjective(p: FyQuarter, q: FyQuarter)
    requires Ordinal(p) == Ordinal(q)
    ensures p == q
  {
    assert Index(p.quarter) < 4 && Index(q.quarter) < 4;
    assert p.fy == q.fy;
  }

  lemma OfOrdinalOfOrdinal(p: FyQuarter)
    ensures OfOrdinal(Ordinal(p)) == p
  {
    OrdinalInjective(OfOrdinal(Ordinal(p)), p);
  }

  /** The quarter before `p`: Q1 of FY n is preceded by Q4 of FY n - 1. */
  function Previous(p: FyQuarter): (r: FyQuarter)
    ensures Ordinal(r) == Ordinal(p) - 1
  {
    OfOrdinal(Ordinal(p) - 1)
  }

  function Following(p: FyQuarter): (r: FyQuarter)
    ensures Ordinal(r) == Ordinal(p) + 1
  {
    OfOrdinal(Ordinal(p) + 1)
  }

  lemma PreviousFollowing(p: FyQuarter)
    ensures Previous(Following(p)) == p && Following(Previous(p)) == p
  {
    OrdinalInjective(Previous(Following(p)), p);
    OrdinalInjective(Following(Previous(p)), p);
  }

  /** Months counted from January of year 0. */
  function MonthIndex(year: int, month: int): int {
    12 * year + month - 1
  }

  /** The month index of the first month of `p`: April of fy - 1 for Q1. */
  function FirstMonth(p: FyQuarter): int {
    3 * Ordinal(p) - 9
  }

  predicate Covers(p: FyQuarter, year: int, month: int) {
    FirstMonth(p) <= MonthIndex(year, month) < FirstMonth(p) + 3
  }

  /** The quarter a calendar month falls in, by arithmetic on the month index. */
  function Containing(year: int, month: int): (p: FyQuarter)
    ensures Covers(p, year, month)
  {
    OfOrdinal((MonthIndex(year, month) + 9) / 3)
  }

  /** Every month lies in exactly one quarter. */
  lemma {:induction false} CoversUnique(p: FyQuarter, year: int, month: int)
    requires Covers(p, year, month)
    ensures p == Containing(year, month)
  {
    var c := Containing(year, month);
    assert Ordinal(p) == Ordinal(c);
    OrdinalInjective(p, c);
  }

  function MonthRange(q: Quarter): string {
    match q
    case Q1 => "Apr-Jun"
    case Q2 => "Jul-Sep"
    case Q3 => "Oct-Dec"
    case Q4 => "Jan-Mar"
  }
}
