/** The "Calculate XIRR for All Deals" loop: per deal, choose the adjusted
    flows, value them with the XIRR solver and collect a summary row for
    every deal whose valuation does not raise. The Newton-Raphson solver is
    a parameter: a total function from flows to a rate, None when it raises. */
module Batch {
  import opened Wrappers
  import opened Tables
  import Seqs
  import Bbsy
  import DateSort

  datatype RateType = Fixed | Floating

  /** A deal's settings: its rate type and anniversary date (absent until
      one is picked). */
  datatype Settings = Settings(rateType: RateType, anniv: Option<int>)

  datatype Deal = Deal(id: int, rows: seq<CashRow>, settings: Settings)

  /** One row of the summary: `Deal`, `XIRR (%)`, `Base Rate (%)`, `Ups (%)`. */
  datatype SummaryRow = SummaryRow(deal: int, xirr: real, base: real, ups: real)

  /** The XIRR solver as seen by the loop: a rate as a fraction, or None
      when the call raises. */
  type Solver = seq<Flow> -> Option<real>

  /** A deal is routed through `apply_bbsy` exactly when it is floating and
      a rate table was uploaded. */
  predicate UsesBbsy(deal: Deal, rates: Option<seq<RateRow>>) {
    deal.settings.rateType == Floating && rates.Some?
  }

  /** The adjusted table for one deal. Off the BBSY path the rows keep their
      entered order, carry no rate and have `Adj_CF == Cashflow`. */
  function AdjustDeal(deal: Deal, rates: Option<seq<RateRow>>): (r: seq<AdjRow>)
    ensures UsesBbsy(deal, rates) ==> r == Bbsy.ApplyBbsy(deal.rows, rates, deal.settings.anniv)
    ensures !UsesBbsy(deal, rates) ==>
      RowsOf(r) == deal.rows &&
      forall i :: 0 <= i < |r| ==> r[i].rate.None? && r[i].adjCf == r[i].row.cashflow
  {
    if UsesBbsy(deal, rates) then Bbsy.ApplyBbsy(deal.rows, rates, deal.settings.anniv)
    else
      var r := Seqs.Map((row: CashRow) => AdjRow(row, None, row.cashflow), deal.rows);
      assert RowsOf(r) == deal.rows;
      r
  }

  function FlowOf(a: AdjRow): Flow { Flow(a.row.date, a.adjCf) }

  /** The flow a row contributes once `apply_bbsy` has adjusted it. */
  function AdjustedFlowOf(rates: Option<seq<RateRow>>, anniv: Option<int>): CashRow -> Flow {
    row => FlowOf(Bbsy.AdjustOne(rates, anniv, row))
  }

  /** The entered rows' adjusted flows, in entered order. */
  function AdjustedFlows(rows: seq<CashRow>, rates: Option<seq<RateRow>>, anniv: Option<int>): seq<Flow> {
    Seqs.Map(AdjustedFlowOf(rates, anniv), rows)
  }

  /** `[(row.Date, row.Adj_CF) for row in adj_df]`: the list the solver
      receives, one flow per entered row. On the BBSY path the flows are
      date-ascending, so the solver's base date (the first flow's,
      xirr_app.py:39) is the earliest, and they are a rearrangement of the
      entered rows' adjusted flows; otherwise they are the raw rows in
      entered order. */
  function DealFlows(deal: Deal, rates: Option<seq<RateRow>>): (r: seq<Flow>)
    ensures |r| == |deal.rows|
    ensures UsesBbsy(deal, rates) ==> forall i, j :: 0 <= i < j < |r| ==> r[i].date <= r[j].date
    ensures UsesBbsy(deal, rates) ==>
      multiset(r) == multiset(AdjustedFlows(deal.rows, rates, deal.settings.anniv))
    ensures !UsesBbsy(deal, rates) ==> r == Seqs.Map(RawFlow, deal.rows)
  {
    var a := AdjustDeal(deal, rates);
    assert forall i :: 0 <= i < |a| ==> a[i].row == RowsOf(a)[i];
    var r := Seqs.Map(FlowOf, a);
    if UsesBbsy(deal, rates) then
      var sorted := DateSort.SortByDate(deal.rows);
      assert r == AdjustedFlows(sorted, rates, deal.settings.anniv);
      Seqs.MapPreservesMultiset(AdjustedFlowOf(rates, deal.settings.anniv), sorted, deal.rows);
      r
    else r
  }

  function RawFlow(row: CashRow): Flow { Flow(row.date, row.cashflow) }

  /** A fixed deal is valued on its raw cash flows in entered order, whatever
      rate table was uploaded: the rate lookup never reaches it. */
  lemma FixedDealValuesRawFlows(deal: Deal, rates: Option<seq<RateRow>>)
    requires deal.settings.rateType == Fixed
    ensures DealFlows(deal, rates) == Seqs.Map(RawFlow, deal.rows)
  {
  }

  /** The summary row of one deal, or None when the solver raises. */
  function EvaluateDeal(deal: Deal, rates: Option<seq<RateRow>>, base: real, xirr: Solver): (r: Option<SummaryRow>)
    ensures r.Some? <==> xirr(DealFlows(deal, rates)).Some?
    ensures r.Some? ==>
      && r.value.deal == deal.id
      && r.value.xirr == 100.0 * xirr(DealFlows(deal, rates)).value
      && r.value.base == base
      && r.value.ups == r.value.xirr - r.value.base
  {
    match xirr(DealFlows(deal, rates))
    case None => None
    case Some(rate) =>
      var pct := rate * 100.0;
      Some(SummaryRow(deal.id, pct, base, pct - base))
  }

  /** The summary after the loop has visited `deals`, in visiting order. */
  function SummaryOf(deals: seq<Deal>, rates: Option<seq<RateRow>>, base: real, xirr: Solver): (r: seq<SummaryRow>)
    ensures |r| <= |deals|
    ensures forall k :: 0 <= k < |r| ==> r[k].base == base && r[k].ups == r[k].xirr - base
  {
    var evaluate := (d: Deal) => EvaluateDeal(d, rates, base, xirr);
    Seqs.CollectIsHitSubsequence(evaluate, deals);
    Seqs.Collect(evaluate, deals)
  }

  /** Positions of the deals whose valuation succeeds, in ascending order. */
  function Survivors(deals: seq<Deal>, rates: Option<seq<RateRow>>, xirr: Solver): (r: seq<nat>)
    ensures forall k :: 0 <= k < |r| ==> r[k] < |deals|
    ensures forall k, l :: 0 <= k < l < |r| ==> r[k] < r[l]
    ensures forall i :: 0 <= i < |deals| ==> (i in r <==> xirr(DealFlows(deals[i], rates)).Some?)
  {
    Seqs.Hits((d: Deal) => xirr(DealFlows(d, rates)), deals)
  }

  /** The summary is the in-order subsequence of deals whose valuation
      succeeded: its k-th row is the row of the k-th surviving deal, and
      failed deals leave no row behind. */
  lemma {:induction false} SummaryIsSurvivorSubsequence(deals: seq<Deal>, rates: Option<seq<RateRow>>,
                                                        base: real, xirr: Solver)
    ensures |SummaryOf(deals, rates, base, xirr)| == |Survivors(deals, rates, xirr)|
    ensures forall k :: 0 <= k < |SummaryOf(deals, rates, base, xirr)| ==>
      Some(SummaryOf(deals, rates, base, xirr)[k]) ==
        EvaluateDeal(deals[Survivors(deals, rates, xirr)[k]], rates, base, xirr)
  {
    var evaluate := (d: Deal) => EvaluateDeal(d, rates, base, xirr);
    Seqs.CollectIsHitSubsequence(evaluate, deals);
    Seqs.HitsSameSupport(evaluate, (d: Deal) => xirr(DealFlows(d, rates)), deals);
  }

  /** Visiting one more deal appends its row, if it has one. */
  lemma SummaryOfSnoc(deals: seq<Deal>, deal: Deal, rates: Option<seq<RateRow>>, base: real, xirr: Solver)
    ensures SummaryOf(deals + [deal], rates, base, xirr) ==
            SummaryOf(deals, rates, base, xirr) + Seqs.Maybe(EvaluateDeal(deal, rates, base, xirr))
  {
  }

  /** The loop of the calculate button: visits the deals in order and appends
      a summary row for each deal whose solver call returns. */
  method RunBatch(deals: seq<Deal>, rates: Option<seq<RateRow>>, base: real, xirr: Solver)
    returns (summary: seq<SummaryRow>)
    ensures summary == SummaryOf(deals, rates, base, xirr)
  {
    summary := [];
    var i := 0;
    while i < |deals|
      invariant 0 <= i <= |deals|
      invariant summary == SummaryOf(deals[..i], rates, base, xirr)
    {
      var deal := deals[i];
      assert deals[..i + 1] == deals[..i] + [deal];
      SummaryOfSnoc(deals[..i], deal, rates, base, xirr);
      match EvaluateDeal(deal, rates, base, xirr) {
        case None =>
        case Some(row) =>
          summary := summary + [row];
      }
      i := i + 1;
    }
    assert deals[..i] == deals;
  }
}
