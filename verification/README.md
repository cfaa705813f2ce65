# Multi-deal XIRR calculator: BBSY reset and batch dispatch, in Dafny

This project models the discrete logic of the multi-deal XIRR calculator (a
Streamlit app, `xirr_app.py`) that runs around its XIRR solver:

* `apply_bbsy` sorts a deal's cash-flow table by `Date`. When a BBSY rate
  table and an anniversary date are both present, it looks up a reset rate
  for every row. The rate is that of the last rate-table row, in table order,
  dated on or before the row. It then sets
  `Adj_CF = Cashflow * (1 + Rate/100)`, with a missing rate read as 0.
  Otherwise `Adj_CF = Cashflow`.
* The calculate loop sends a deal through `apply_bbsy` only when the deal is
  Floating and a rate table was uploaded. Any other deal keeps its rows in
  entered order with `Adj_CF = Cashflow`. The loop values the
  `(Date, Adj_CF)` flows with the solver. It builds a summary row with
  `XIRR (%) = 100 * xirr`, the global base rate and `Ups = XIRR - Base`.
  A deal whose solver call raises is reported and leaves no row.

Dates are integer day numbers. Amounts and rates are exact reals. The solver
is a parameter `seq<Flow> -> Option<real>`, where `None` stands for a call
that raises. Every operation is a pure function on immutable sequences, so
the caller's table is never changed.

Modules: `Wrappers` (Option), `Seqs` (generic map/collect and permutation
facts), `Tables` (row records), `DateSort` (the `Date` sort), `RateLookup`
(the as-of lookup), `Bbsy` (`apply_bbsy`) and `Batch` (dispatch, per-deal
evaluation, summary loop).

Three behaviours of the code are worth stating plainly:

* A deal whose solver call raises leaves no summary row, because
  `summary.append` sits inside the `try` (xirr_app.py:174-191). The summary
  is therefore the in-order subsequence of the deals that succeed
  (`Batch.SummaryIsSurvivorSubsequence`).
* `sort_values("Date")` uses pandas' default quicksort, which is not stable,
  so no contract orders rows that share a date. `Bbsy.TieOrderIrrelevant`
  shows that any date-ascending order of the rows gives the same adjusted
  rows and the same date at every position.
* The lookup takes the last qualifying row in table order
  (xirr_app.py:68-70). That is the latest-dated row only on a date-ascending
  table (`RateLookup.AsOfIsLatestWhenAscending`); the counterexample
  `RateLookup.UnsortedTableFollowsTableOrder` shows the two differing.

## Model

| member | source | states |
|---|---|---|
| `DateSort.SortByDate` | xirr_app.py:57-58 | The result is date-ascending and a permutation of the input rows (same multiset, same length), so each row keeps its `Date` and `Cashflow`; nothing is said about the order of equal dates |
| `RateLookup.LastApplicable` | xirr_app.py:67-70 | None exactly when every rate-table row is dated after the flow date; otherwise an index whose row applies and after which, in table order, no row applies |
| `RateLookup.RateAsOf` | xirr_app.py:66-70 | No rate (NaN) exactly when the flow date precedes every rate-table date; otherwise the `Rate` of the last applicable row in table order |
| `RateLookup.RateAsOfIsLastOfFilter` | xirr_app.py:68-70 | The backward scan equals the source's formulation: filter the table by `Date <= d`, then take the last survivor's `Rate` |
| `RateLookup.AsOfIsLatestWhenAscending` | xirr_app.py:68-70 | On a date-ascending rate table, the rate found belongs to an applicable row that no other applicable row post-dates |
| `RateLookup.UnsortedTableFollowsTableOrder` | xirr_app.py:68-70 | On an unsorted table the lookup follows table order: an earlier-dated row listed last wins over a later-dated one |
| `Bbsy.AdjustAmount` | xirr_app.py:71 | A missing rate or a zero rate leaves the amount unchanged, a zero cash flow stays zero, a rate above -100% keeps the flow's sign, and the change equals `Cashflow * Rate / 100` |
| `Bbsy.ApplyBbsy` | xirr_app.py:55-75 | Same row count, date-ascending, a permutation of the input's `(Date, Cashflow)` rows; without a rate table or anniversary date every row has no rate and `Adj_CF == Cashflow`; otherwise each row carries the as-of rate for its date and the adjusted amount for that rate, and a row dated before every rate gets no rate and `Adj_CF == Cashflow` |
| `Bbsy.AnniversaryOnlyGates` | xirr_app.py:60-71 | Any two present anniversary dates give the same output: the date only gates the lookup |
| `Bbsy.TieOrderIrrelevant` | xirr_app.py:58 | Adjusting any date-ascending permutation of the rows gives the same multiset of adjusted rows as `apply_bbsy`, with the same date at every position |
| `Bbsy.TwoResetScenario` | xirr_app.py:55-75 | With rates 5% from day 0 and 5.5% from day 200, a flow on day 0 resets at 5% and one on day 365 at 5.5%, and the rows come out date-sorted |
| `Batch.AdjustDeal` | xirr_app.py:162-167 | A Floating deal with a rate table gets exactly the `apply_bbsy` table; any other deal keeps its rows in entered order, with no rate and `Adj_CF == Cashflow` |
| `Batch.DealFlows` | xirr_app.py:163-172 | One flow per entered row. On the BBSY path the flows are date-ascending, so the first flow, which the solver takes as its base date, is the earliest; they are also a rearrangement of the entered rows' `(Date, Adj_CF)` flows, so a Floating deal is valued on its adjusted amounts. Otherwise they are the raw `(Date, Cashflow)` pairs in entered order |
| `Batch.FixedDealValuesRawFlows` | xirr_app.py:162-172 | A Fixed deal hands the solver its raw `(Date, Cashflow)` flows in entered order, whatever rate table was uploaded |
| `Batch.EvaluateDeal` | xirr_app.py:174-188 | A row exists exactly when the solver returns; it carries the deal id, `XIRR = 100 * rate`, the global base rate and `Ups = XIRR - Base` |
| `Batch.SummaryOf` | xirr_app.py:158-191 | No more rows than deals; every row carries the global base rate and `Ups = XIRR - Base` |
| `Batch.Survivors` | xirr_app.py:174-191 | Strictly ascending deal positions, each in range, and a position is listed exactly when that deal's solver call returns |
| `Batch.SummaryIsSurvivorSubsequence` | xirr_app.py:158-191 | The summary has one row per surviving deal, in iteration order, and the k-th row is the evaluation of the k-th surviving deal; failed deals leave no row |
| `Batch.RunBatch` | xirr_app.py:158-191 | The loop over deals builds exactly the in-order summary of the deals whose valuation succeeds |

## Left out

- The Newton-Raphson `xirr` solver (xirr_app.py:35-53) is floating-point numerics: fractional powers, division by a float derivative, complex results and overflow. It is a parameter that returns a rate or fails, so a complex-valued result, which Python produces without raising, is outside the model.
- Streamlit UI and session state (xirr_app.py:8-30, 80-152): page setup, widgets, data editor, the add-deal button and session bookkeeping. These are presentation only. The deals and their settings are inputs.
- File I/O: the upload parsing of the rate table (xirr_app.py:113-123) and the Excel export (xirr_app.py:193-214).
- Float rounding: `Adj_CF`, `XIRR (%)` and `Ups (%)` are computed in exact reals.
- Date conversions (`to_pydatetime`, `datetime.combine`, xirr_app.py:61-64, 170): dates are day numbers, and normalising the anniversary date is the identity.
- Blank cells are not modelled: `CashRow` and `RateRow` hold an integer date and a real amount or rate. This covers NaN or NaT cells in the entered cash-flow tables and in the uploaded BBSY table. In the source, a NaT rate-table `Date` never satisfies `<=`, so that row never applies. A blank `Rate` in the last applicable row gives the flow a NaN rate, which `fillna(0)` turns into no adjustment; it does not fall back to an earlier rate (xirr_app.py:68-71).
- The extra columns of a deal's table (`Base Rate`, `Higher Rate`, `Type`) travel with each row unchanged and are not modelled.
- The model has no separate marker for the absent `Rate` column of the pass-through branch and a NaN rate: both are `None`.
- Exceptions outside the `try` (from `apply_bbsy` or flow building on malformed data) cannot occur on the typed rows of the model.
- The display of per-deal results and of the summary table (xirr_app.py:178-181, 193-197) is presentation only.
