/** `sort_values("Date")` on a cash-flow table: an ascending reordering of the
    rows. The order of rows sharing a date is left open, since the source's
    default sort is not stable. */
module DateSort {
  import opened Tables

  function Insert(x: CashRow, s: seq<CashRow>): (r: seq<CashRow>)
    requires SortedByDate(s)
    ensures SortedByDate(r)
    ensures multiset(r) == multiset(s) + multiset{x}
    ensures |s| > 0 ==> r[0] == x || r[0] == s[0]
  {
    if |s| == 0 then [x]
    else if x.date <= s[0].date then [x] + s
    else
      assert s == [s[0]] + s[1..];
      [s[0]] + Insert(x, s[1..])
  }

  function SortByDate(s: seq<CashRow>): (r: seq<CashRow>)
    ensures SortedByDate(r)
    ensures multiset(r) == multiset(s)
    ensures |r| == |s|
  {
    if |s| == 0 then []
    else
      assert s == [s[0]] + s[1..];
      var r := Insert(s[0], SortByDate(s[1..]));
      assert |r| == |multiset(r)| == |multiset(s)| == |s|;
      r
  }
}
