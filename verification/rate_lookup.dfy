/** The BBSY as-of lookup: for one cash-flow date, the rate of the last entry
    of the rate table, in the table's own order, whose date is on or before
    that date. */
module RateLookup {
  import opened Wrappers
  import opened Tables

  /** Entry `i` of the rate table is dated on or before `d`. */
  ghost predicate Applies(t: seq<RateRow>, d: int, i: int) {
    0 <= i < |t| && t[i].date <= d
  }

  /** Entry `i` applies to `d` and no later entry, in table order, does. */
  ghost predicate IsLastApplicable(t: seq<RateRow>, d: int, i: int) {
    Applies(t, d, i) && forall j :: i < j < |t| ==> t[j].date > d
  }

  /** Index of the last applicable entry, scanning from the end of the table. */
  function LastApplicable(t: seq<RateRow>, d: int): (r: Option<nat>)
    ensures r.None? <==> forall j :: 0 <= j < |t| ==> t[j].date > d
    ensures r.Some? ==> IsLastApplicable(t, d, r.value)
  {
    if |t| == 0 then None
    else if t[|t| - 1].date <= d then Some(|t| - 1)
    else LastApplicable(t[..|t| - 1], d)
  }

  /** The reset rate for date `d`; None when every entry is dated after `d`
      (the NaN that the adjustment later reads as 0). */
  function RateAsOf(t: seq<RateRow>, d: int): (r: Option<real>)
    ensures r.None? <==> forall j :: 0 <= j < |t| ==> t[j].date > d
    ensures r.Some? ==> exists i :: IsLastApplicable(t, d, i) && t[i].rate == r.value
  {
    match LastApplicable(t, d)
    case None => None
    case Some(i) => Some(t[i].rate)
  }

  /** `bbsy_df[bbsy_df["Date"] <= d]`: the applicable entries in table order. */
  function Applicable(t: seq<RateRow>, d: int): seq<RateRow> {
    if |t| == 0 then [] else IfApplies(t[0], d) + Applicable(t[1..], d)
  }

  function IfApplies(e: RateRow, d: int): seq<RateRow> {
    if e.date <= d then [e] else []
  }

  /** The source's formulation: filter, then the `Rate` of the last survivor. */
  function LastOfApplicable(t: seq<RateRow>, d: int): Option<real> {
    var a := Applicable(t, d);
    if |a| == 0 then None else Some(a[|a| - 1].rate)
  }

  lemma {:induction false} ApplicableAppend(t: seq<RateRow>, e: RateRow, d: int)
    ensures Applicable(t + [e], d) == Applicable(t, d) + IfApplies(e, d)
    decreases |t|
  {
    var u := t + [e];
    if |t| == 0 {
      assert u[1..] == [];
    } else {
      assert u[0] == t[0] && u[1..] == t[1..] + [e];
      ApplicableAppend(t[1..], e, d);
      calc {
        Applicable(u, d);
        IfApplies(t[0], d) + Applicable(t[1..] + [e], d);
        IfApplies(t[0], d) + (Applicable(t[1..], d) + IfApplies(e, d));
        (IfApplies(t[0], d) + Applicable(t[1..], d)) + IfApplies(e, d);
      }
    }
  }

  /** The backward scan agrees with filter-then-last on every table and date. */
  lemma {:induction false} RateAsOfIsLastOfFilter(t: seq<RateRow>, d: int)
    ensures RateAsOf(t, d) == LastOfApplicable(t, d)
    decreases |t|
  {
    if |t| > 0 {
      var n := |t| - 1;
      assert t == t[..n] + [t[n]];
      ApplicableAppend(t[..n], t[n], d);
      RateAsOfIsLastOfFilter(t[..n], d);
    }
  }

  /** On a date-ascending table the last applicable entry is also a
      latest-dated one: no applicable entry carries a later date. */
  lemma AsOfIsLatestWhenAscending(t: seq<RateRow>, d: int)
    requires RatesAscending(t)
    ensures RateAsOf(t, d).Some? ==>
      exists i :: Applies(t, d, i) && t[i].rate == RateAsOf(t, d).value &&
        forall j :: Applies(t, d, j) ==> t[j].date <= t[i].date
  {
  }

  /** Without the ascending order the lookup follows table order, not dates:
      here the entry dated 200 applies to day 365, yet the later row dated 0
      supplies the rate. */
  lemma UnsortedTableFollowsTableOrder()
    ensures RateAsOf([RateRow(200, 5.5), RateRow(0, 5.0)], 365) == Some(5.0)
  {
  }
}
