/** `apply_bbsy`: sorts a deal's cash flows by date and, when both a rate
    table and an anniversary date are given, scales every flow by the BBSY
    rate in force on its date. */
module Bbsy {
  import opened Wrappers
  import opened Tables
  import Seqs
  import DateSort
  import RateLookup

  /** `Cashflow * (1 + Rate/100)` with a missing rate read as 0. */
  function AdjustAmount(cashflow: real, rate: Option<real>): (r: real)
    ensures rate.None? ==> r == cashflow
    ensures rate == Some(0.0) ==> r == cashflow
    ensures cashflow == 0.0 ==> r == 0.0
    ensures rate.Some? && rate.value > -100.0 ==>
      (r > 0.0 <==> cashflow > 0.0) && (r < 0.0 <==> cashflow < 0.0)
    ensures r - cashflow == cashflow * rate.GetOr(0.0) / 100.0
  {
    var factor := 1.0 + rate.GetOr(0.0) / 100.0;
    SignOfScaled(cashflow, factor);
    cashflow * factor
  }

  lemma SignOfScaled(x: real, k: real)
    ensures k > 0.0 ==> (x * k > 0.0 <==> x > 0.0) && (x * k < 0.0 <==> x < 0.0)
  {
  }

  /** The lookup branch runs only when a rate table and an anniversary date
      are both present. */
  predicate LookupEnabled(rates: Option<seq<RateRow>>, anniv: Option<int>) {
    rates.Some? && anniv.Some?
  }

  /** The treatment of one row of the already-sorted table. */
  function AdjustOne(rates: Option<seq<RateRow>>, anniv: Option<int>, row: CashRow): AdjRow {
    if LookupEnabled(rates, anniv) then
      var rate := RateLookup.RateAsOf(rates.value, row.date);
      AdjRow(row, rate, AdjustAmount(row.cashflow, rate))
    else
      AdjRow(row, None, row.cashflow)
  }

  /** The row-wise part of `apply_bbsy`, applied to a table in any order. */
  function AdjustRows(s: seq<CashRow>, rates: Option<seq<RateRow>>, anniv: Option<int>): seq<AdjRow> {
    Seqs.Map(row => AdjustOne(rates, anniv, row), s)
  }

  /** `apply_bbsy(cashflows_df, bbsy_df, anniv_date)`. The anniversary date
      only enters through the gate; its normalisation to a datetime is the
      identity on day numbers. */
  function ApplyBbsy(rows: seq<CashRow>, rates: Option<seq<RateRow>>, anniv: Option<int>): (r: seq<AdjRow>)
    ensures |r| == |rows|
    ensures SortedByDate(RowsOf(r))
    ensures multiset(RowsOf(r)) == multiset(rows)
    ensures !LookupEnabled(rates, anniv) ==>
      forall i :: 0 <= i < |r| ==> r[i].rate.None? && r[i].adjCf == r[i].row.cashflow
    ensures LookupEnabled(rates, anniv) ==>
      forall i :: 0 <= i < |r| ==>
        r[i].rate == RateLookup.RateAsOf(rates.value, r[i].row.date) &&
        r[i].adjCf == AdjustAmount(r[i].row.cashflow, r[i].rate)
    ensures LookupEnabled(rates, anniv) ==>
      forall i :: 0 <= i < |r| && (forall j :: 0 <= j < |rates.value| ==> r[i].row.date < rates.value[j].date) ==>
        r[i].rate.None? && r[i].adjCf == r[i].row.cashflow
  {
    var sorted := DateSort.SortByDate(rows);
    var r := AdjustRows(sorted, rates, anniv);
    assert RowsOf(r) == sorted;
    r
  }

  /** The anniversary date is never read beyond the gate: any two present
      anniversary dates give the same adjusted table. */
  lemma AnniversaryOnlyGates(rows: seq<CashRow>, rates: Option<seq<RateRow>>, a1: int, a2: int)
    ensures ApplyBbsy(rows, rates, Some(a1)) == ApplyBbsy(rows, rates, Some(a2))
  {
  }

  /** The result does not depend on how rows sharing a date are ordered: for
      any date-ascending rearrangement `p` of the rows, adjusting `p` row by
      row gives the same rows as `apply_bbsy`, and the same date at every
      position. */
  lemma {:induction false} TieOrderIrrelevant(rows: seq<CashRow>, p: seq<CashRow>,
                                              rates: Option<seq<RateRow>>, anniv: Option<int>)
    requires SortedByDate(p)
    requires multiset(p) == multiset(rows)
    ensures multiset(AdjustRows(p, rates, anniv)) == multiset(ApplyBbsy(rows, rates, anniv))
    ensures |p| == |rows|
    ensures forall i :: 0 <= i < |p| ==> ApplyBbsy(rows, rates, anniv)[i].row.date == p[i].date
  {
    var sorted := DateSort.SortByDate(rows);
    Seqs.MapPreservesMultiset(row => AdjustOne(rates, anniv, row), p, sorted);
    Seqs.MapPreservesMultiset(DateOf, p, sorted);
    assert |p| == |multiset(p)| == |rows|;
    SortedByDateIsAscendingDates(p);
    SortedByDateIsAscendingDates(sorted);
    Seqs.AscendingPermutationsEqual(Dates(p), Dates(sorted));
    assert forall i :: 0 <= i < |p| ==> Dates(p)[i] == p[i].date;
  }

  /** The scenario of a two-entry schedule: a flow on day 0 resets at 5%, a
      flow on day 365 at the 5.5% that took effect on day 200. */
  lemma TwoResetScenario()
    ensures ApplyBbsy([CashRow(365, 1000.0), CashRow(0, -1000.0)],
                      Some([RateRow(0, 5.0), RateRow(200, 5.5)]), Some(0)) ==
            [AdjRow(CashRow(0, -1000.0), Some(5.0), -1050.0),
             AdjRow(CashRow(365, 1000.0), Some(5.5), 1055.0)]
  {
    var rates := [RateRow(0, 5.0), RateRow(200, 5.5)];
    assert RateLookup.RateAsOf(rates, 0) == Some(5.0);
    assert RateLookup.RateAsOf(rates, 365) == Some(5.5);
    var rows := [CashRow(365, 1000.0), CashRow(0, -1000.0)];
    assert rows[1..] == [CashRow(0, -1000.0)];
    assert DateSort.SortByDate(rows[1..]) == [CashRow(0, -1000.0)];
    assert DateSort.SortByDate(rows) == [CashRow(0, -1000.0), CashRow(365, 1000.0)];
  }
}
