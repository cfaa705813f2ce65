/** The tables the calculator works on, as typed rows. Dates are day numbers,
    amounts and percentages exact reals. */
module Tables {
  import opened Wrappers
  import Seqs

  /** One row of a deal's cash-flow table (`Date`, `Cashflow`). */
  datatype CashRow = CashRow(date: int, cashflow: real)

  /** One row of the BBSY rate table (`Date`, `Rate` in percent). */
  datatype RateRow = RateRow(date: int, rate: real)

  /** A cash-flow row after adjustment: the original row, the reset rate
      looked up for it (None for NaN or for no `Rate` column at all) and
      `Adj_CF`. */
  datatype AdjRow = AdjRow(row: CashRow, rate: Option<real>, adjCf: real)

  /** One `(date, amount)` pair handed to the XIRR solver. */
  datatype Flow = Flow(date: int, amount: real)

  function DateOf(r: CashRow): int { r.date }

  function Dates(s: seq<CashRow>): seq<int> {
    Seqs.Map(DateOf, s)
  }

  /** The rows are in ascending `Date` order: `Seqs.Ascending` read on the
      rows themselves (`SortedByDateIsAscendingDates`), the form the sort's
      proofs use. */
  ghost predicate SortedByDate(s: seq<CashRow>) {
    forall i, j :: 0 <= i < j < |s| ==> s[i].date <= s[j].date
  }

  lemma SortedByDateIsAscendingDates(s: seq<CashRow>)
    ensures SortedByDate(s) <==> Seqs.Ascending(Dates(s))
  {
  }

  /** The rate table is in ascending `Date` order. */
  ghost predicate RatesAscending(t: seq<RateRow>) {
    forall i, j :: 0 <= i < j < |t| ==> t[i].date <= t[j].date
  }

  function RowOf(a: AdjRow): CashRow { a.row }

  /** The `Date`/`Cashflow` columns of an adjusted table. */
  function RowsOf(a: seq<AdjRow>): seq<CashRow> {
    Seqs.Map(RowOf, a)
  }
}
