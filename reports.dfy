/** The aggregations of `pages/Reports.tsx`, computed over the orders the
    current user may see: revenue per day from completed orders, the last
    seven revenue days, order counts per status, and the KPI totals. */
module Reports {
  import opened Wrappers
  import opened Seqs
  import opened Dict
  import opened Types
  import opened Ledger

  predicate IsCompleted(o: Order) {
    o.status == Completed
  }

  /** The filter predicate "has status `s`". */
  function HasStatus(s: OrderStatus): Order -> bool {
    (o: Order) => o.status == s
  }

  /* ---------- Revenue per day ---------- */

  /** `revenueMap`: the reduce that adds each completed order's amount under
      its date, creating the date's entry on first use. */
  function RevenueMap(orders: seq<Order>): Dict<Day, int> {
    if orders == [] then []
    else
      var acc := RevenueMap(orders[..|orders| - 1]);
      var o := orders[|orders| - 1];
      if o.status == Completed then Put(acc, o.date, Get(acc, o.date).GetOr(0) + o.amount)
      else acc
  }

  /** The revenue of completed orders on day `d`. */
  function RevenueOn(orders: seq<Order>, d: Day): int {
    Sum(Filter(orders, CompletedOn(d)), Amount)
  }

  /** `totalRevenue`: the amounts of the completed orders. */
  function TotalRevenue(orders: seq<Order>): int {
    Sum(Filter(orders, IsCompleted), Amount)
  }

  /** Under each day the revenue map holds that day's revenue, and it has
      no entry for a day without a completed order. */
  lemma {:induction false} RevenueMapGet(orders: seq<Order>, d: Day)
    ensures Get(RevenueMap(orders), d)
         == if Filter(orders, CompletedOn(d)) != [] then Some(RevenueOn(orders, d)) else None
  {
    if orders != [] {
      var p, o := orders[..|orders| - 1], orders[|orders| - 1];
      RevenueMapGet(p, d);
      RevenueMapGetStep(orders, d);
      if o.status == Completed && o.date == d {
        SumSnoc(Filter(p, CompletedOn(d)), o, Amount);
      }
    }
  }

  /** One step of the reduce, read at day `d`: the last order adds its
      amount there if it was completed on `d`. */
  lemma RevenueMapGetStep(orders: seq<Order>, d: Day)
    requires orders != []
    ensures var p, o := orders[..|orders| - 1], orders[|orders| - 1];
      Get(RevenueMap(orders), d)
      == if o.status == Completed && o.date == d then Some(Get(RevenueMap(p), d).GetOr(0) + o.amount)
         else Get(RevenueMap(p), d)
  {
    var p, o := orders[..|orders| - 1], orders[|orders| - 1];
    if o.status == Completed {
      PutGet(RevenueMap(p), o.date, Get(RevenueMap(p), o.date).GetOr(0) + o.amount, d);
    }
  }

  /** The revenue map never lists a day twice. */
  lemma {:induction false} RevenueMapDistinct(orders: seq<Order>)
    ensures Distinct(Keys(RevenueMap(orders)))
  {
    if orders != [] {
      var p, o := orders[..|orders| - 1], orders[|orders| - 1];
      RevenueMapDistinct(p);
      if o.status == Completed {
        PutDistinct(RevenueMap(p), o.date, Get(RevenueMap(p), o.date).GetOr(0) + o.amount);
      }
    }
  }

  /** The revenue map's values add up to the total revenue. */
  lemma {:induction false} RevenueMapTotal(orders: seq<Order>)
    ensures Total(RevenueMap(orders), Id) == TotalRevenue(orders)
  {
    if orders != [] {
      var p, o := orders[..|orders| - 1], orders[|orders| - 1];
      assert p + [o] == orders;
      RevenueMapTotal(p);
      var acc := RevenueMap(p);
      if o.status == Completed {
        var v := Get(acc, o.date).GetOr(0) + o.amount;
        assert RevenueMap(orders) == Put(acc, o.date, v) by { RevenueMapSnoc(p, o); }
        assert Total(Put(acc, o.date, v), Id) == Total(acc, Id) + o.amount by {
          PutTotal(acc, o.date, v, Id);
          assert (match Get(acc, o.date) case Some(w) => Id(w) case None => 0) == v - o.amount;
        }
        assert TotalRevenue(orders) == TotalRevenue(p) + o.amount by { TotalRevenueSnoc(p, o); }
      } else {
        assert RevenueMap(orders) == acc by { RevenueMapSnoc(p, o); }
        assert TotalRevenue(orders) == TotalRevenue(p) by { TotalRevenueSnoc(p, o); }
      }
    }
  }

  /** The reduce step for one more order. */
  lemma RevenueMapSnoc(p: seq<Order>, o: Order)
    ensures RevenueMap(p + [o]) == if o.status == Completed
      then Put(RevenueMap(p), o.date, Get(RevenueMap(p), o.date).GetOr(0) + o.amount)
      else RevenueMap(p)
  {
    assert (p + [o])[..|p|] == p;
  }

  /** One more order adds its amount to the total revenue if it is completed. */
  lemma TotalRevenueSnoc(p: seq<Order>, o: Order)
    ensures TotalRevenue(p + [o]) == TotalRevenue(p) + (if o.status == Completed then o.amount else 0)
  {
    FilterSnoc(p, o, IsCompleted);
    if o.status == Completed {
      SumSnoc(Filter(p, IsCompleted), o, Amount);
    }
  }

  /** The revenue map lists each day with a completed order exactly once,
      with that day's revenue, and its values add up to the total revenue. */
  lemma RevenueMapSpec(orders: seq<Order>)
    ensures Distinct(Keys(RevenueMap(orders)))
    ensures forall d :: (Get(RevenueMap(orders), d)
      == if Filter(orders, CompletedOn(d)) != [] then Some(RevenueOn(orders, d)) else None)
    ensures forall d :: d in Keys(RevenueMap(orders)) <==> Filter(orders, CompletedOn(d)) != []
    ensures Total(RevenueMap(orders), Id) == TotalRevenue(orders)
  {
    forall d ensures Get(RevenueMap(orders), d)
      == if Filter(orders, CompletedOn(d)) != [] then Some(RevenueOn(orders, d)) else None
    {
      RevenueMapGet(orders, d);
    }
    forall d ensures d in Keys(RevenueMap(orders)) <==> Filter(orders, CompletedOn(d)) != [] {
      RevenueMapGet(orders, d);
      GetPresent(RevenueMap(orders), d);
    }
    RevenueMapDistinct(orders);
    RevenueMapTotal(orders);
  }

  /** Over the ledger's own list, the dashboard's revenue counts every
      order and the report's sum counts the completed ones only; the
      difference is the rest's amounts. */
  lemma ReportRevenueVersusStats(db: MockDatabase, today: Day)
    ensures db.GetStats(today).revenue
         == TotalRevenue(db.orders) + Sum(Filter(db.orders, Not(IsCompleted)), Amount)
  {
    SumSplit(db.orders, Amount, IsCompleted);
  }

  /* ---------- The revenue chart ---------- */

  /** One bar of the revenue chart. */
  datatype RevenuePoint = RevenuePoint(date: Day, amount: int)

  /** Strictly ascending. */
  predicate Ascending(s: seq<int>) {
    forall i, j :: 0 <= i < j < |s| ==> s[i] < s[j]
  }

  /** `slice(-7)`: the last seven elements, or all of them if fewer. */
  function LastSeven(s: seq<Day>): (r: seq<Day>)
    ensures |r| == if |s| < 7 then |s| else 7
    ensures forall i :: 0 <= i < |r| ==> r[i] == s[|s| - |r| + i]
  {
    var n := if |s| < 7 then |s| else 7;
    seq(n, i requires 0 <= i < n => s[|s| - n + i])
  }

  /** The days `revenueData` shows: the keys sorted ascending, the last
      seven of them. */
  function LatestDays(keys: seq<Day>): seq<Day> {
    LastSeven(SortDesc(keys, Neg))
  }

  /** Sorting distinct days by `Neg` puts them in strictly ascending order. */
  lemma SortAscendingStrict(keys: seq<Day>)
    requires Distinct(keys)
    ensures Ascending(SortDesc(keys, Neg))
  {
    DistinctPermutation(keys, SortDesc(keys, Neg));
    NegSortedAscending(SortDesc(keys, Neg));
  }

  /** Sorted by `Neg` and without repeats means strictly ascending. */
  lemma NegSortedAscending(s: seq<Day>)
    requires SortedDesc(s, Neg) && Distinct(s)
    ensures Ascending(s)
  {
    forall i, j | 0 <= i < j < |s| ensures s[i] < s[j] {
      assert Neg(s[i]) >= Neg(s[j]);
    }
  }

  /** The tail of a strictly ascending sequence ascends, and everything
      before it is smaller than all of it. */
  lemma LastSevenOfAscending(s: seq<Day>)
    requires Ascending(s)
    ensures Ascending(LastSeven(s))
    ensures forall k, i :: 0 <= k < |s| - |LastSeven(s)| && 0 <= i < |LastSeven(s)| ==>
      s[k] < LastSeven(s)[i]
  {
    var r := LastSeven(s);
    var off := |s| - |r|;
    forall k, i | 0 <= k < off && 0 <= i < |r| ensures s[k] < r[i] {
      assert r[i] == s[off + i];
    }
    forall i, j | 0 <= i < j < |r| ensures r[i] < r[j] {
      assert r[i] == s[off + i] && r[j] == s[off + j];
    }
  }

  /** Sorting keeps the days: a day is among the sorted keys exactly when it is a key. */
  lemma SortedKeys(keys: seq<Day>, d: Day)
    ensures d in SortDesc(keys, Neg) <==> d in keys
  {
    var sorted := SortDesc(keys, Neg);
    assert d in sorted <==> d in multiset(sorted);
    assert d in keys <==> d in multiset(keys);
  }

  /** A day of an ascending sequence that its last seven leave out is
      older than all of them. */
  lemma TailOlder(s: seq<Day>, d: Day)
    requires Ascending(s) && d in s
    ensures d in LastSeven(s) || forall i :: 0 <= i < |LastSeven(s)| ==> d < LastSeven(s)[i]
  {
    var r := LastSeven(s);
    var off := |s| - |r|;
    var k :| 0 <= k < |s| && s[k] == d;
    if k >= off {
      assert r[k - off] == d;
    } else {
      forall i | 0 <= i < |r| ensures d < r[i] {
        assert r[i] == s[off + i];
      }
    }
  }

  /** A key the latest days leave out is older than every day they show. */
  lemma LatestDaysOlder(keys: seq<Day>, d: Day)
    requires Distinct(keys) && d in keys
    ensures d in LatestDays(keys) || forall i :: 0 <= i < |LatestDays(keys)| ==> d < LatestDays(keys)[i]
  {
    SortedKeys(keys, d);
    SortAscendingStrict(keys);
    TailOlder(SortDesc(keys, Neg), d);
  }

  /** The last seven are taken from the sequence. */
  lemma TailMember(s: seq<Day>, i: int)
    requires 0 <= i < |LastSeven(s)|
    ensures LastSeven(s)[i] in s
  {
    assert LastSeven(s)[i] == s[|s| - |LastSeven(s)| + i];
  }

  /** Every day shown is a key. */
  lemma LatestDayIsKey(keys: seq<Day>, i: int)
    requires 0 <= i < |LatestDays(keys)|
    ensures LatestDays(keys)[i] in keys
  {
    TailMember(SortDesc(keys, Neg), i);
    SortedKeys(keys, LatestDays(keys)[i]);
  }

  /** Of distinct days, the latest seven (or all if fewer) in strictly
      ascending order; every day left out is older than every day shown. */
  lemma LatestDaysSpec(keys: seq<Day>)
    requires Distinct(keys)
    ensures |LatestDays(keys)| == if |keys| < 7 then |keys| else 7
    ensures Ascending(LatestDays(keys))
    ensures forall i :: 0 <= i < |LatestDays(keys)| ==> LatestDays(keys)[i] in keys
    ensures forall d :: d in keys ==>
      d in LatestDays(keys) || forall i :: 0 <= i < |LatestDays(keys)| ==> d < LatestDays(keys)[i]
  {
    var r := LatestDays(keys);
    SortAscendingStrict(keys);
    LastSevenOfAscending(SortDesc(keys, Neg));
    forall i | 0 <= i < |r| ensures r[i] in keys {
      LatestDayIsKey(keys, i);
    }
    forall d | d in keys
      ensures d in r || forall i :: 0 <= i < |r| ==> d < r[i]
    {
      LatestDaysOlder(keys, d);
    }
  }

  /** `revenueData`: the revenue days in ascending order, the last seven of
      them, each with its revenue. */
  function RevenueData(orders: seq<Order>): seq<RevenuePoint> {
    var m := RevenueMap(orders);
    var dates := LatestDays(Keys(m));
    seq(|dates|, i requires 0 <= i < |dates| => RevenuePoint(dates[i], Get(m, dates[i]).GetOr(0)))
  }

  /** A bar's day has revenue, and the bar shows that revenue. */
  lemma RevenuePointSpec(orders: seq<Order>, i: int)
    requires 0 <= i < |RevenueData(orders)|
    ensures var p := RevenueData(orders)[i];
      Filter(orders, CompletedOn(p.date)) != [] && p.amount == RevenueOn(orders, p.date)
  {
    var m := RevenueMap(orders);
    var d := LatestDays(Keys(m))[i];
    assert RevenueData(orders)[i] == RevenuePoint(d, Get(m, d).GetOr(0));
    LatestDayIsKey(Keys(m), i);
    GetPresent(m, d);
    RevenueMapGet(orders, d);
  }

  /** A revenue day is shown, or is older than every day shown. */
  lemma RevenueDayShownOrOlder(orders: seq<Order>, d: Day)
    requires Filter(orders, CompletedOn(d)) != []
    ensures || (exists i :: 0 <= i < |RevenueData(orders)| && RevenueData(orders)[i].date == d)
            || (forall i :: 0 <= i < |RevenueData(orders)| ==> d < RevenueData(orders)[i].date)
  {
    var m := RevenueMap(orders);
    var dates := LatestDays(Keys(m));
    var r := RevenueData(orders);
    assert forall i :: 0 <= i < |r| ==> r[i].date == dates[i];
    RevenueMapGet(orders, d);
    GetPresent(m, d);
    RevenueMapDistinct(orders);
    LatestDaysOlder(Keys(m), d);
    if d in dates {
      var k :| 0 <= k < |dates| && dates[k] == d;
      assert r[k].date == d;
    }
  }

  /** The chart's length and the order of its days. */
  lemma RevenueDataAscending(orders: seq<Order>)
    ensures var n := |Keys(RevenueMap(orders))|;
      |RevenueData(orders)| == if n < 7 then n else 7
    ensures forall i, j :: 0 <= i < j < |RevenueData(orders)| ==>
      RevenueData(orders)[i].date < RevenueData(orders)[j].date
  {
    var m := RevenueMap(orders);
    var dates := LatestDays(Keys(m));
    var r := RevenueData(orders);
    RevenueMapDistinct(orders);
    SortAscendingStrict(Keys(m));
    LastSevenOfAscending(SortDesc(Keys(m), Neg));
    forall i, j | 0 <= i < j < |r| ensures r[i].date < r[j].date {
      assert r[i].date == dates[i] && r[j].date == dates[j];
    }
  }

  /** The chart has seven bars, or one per revenue day if there are fewer;
      its days ascend strictly and carry their revenue; any revenue day not
      shown is older than every day shown. */
  lemma RevenueDataSpec(orders: seq<Order>)
    ensures var n := |Keys(RevenueMap(orders))|;
      |RevenueData(orders)| == if n < 7 then n else 7
    ensures forall i, j :: 0 <= i < j < |RevenueData(orders)| ==>
      RevenueData(orders)[i].date < RevenueData(orders)[j].date
    ensures forall i :: 0 <= i < |RevenueData(orders)| ==>
      && Filter(orders, CompletedOn(RevenueData(orders)[i].date)) != []
      && RevenueData(orders)[i].amount == RevenueOn(orders, RevenueData(orders)[i].date)
    ensures forall d :: Filter(orders, CompletedOn(d)) != [] ==>
      || (exists i :: 0 <= i < |RevenueData(orders)| && RevenueData(orders)[i].date == d)
      || (forall i :: 0 <= i < |RevenueData(orders)| ==> d < RevenueData(orders)[i].date)
  {
    var r := RevenueData(orders);
    RevenueDataAscending(orders);
    forall i | 0 <= i < |r|
      ensures Filter(orders, CompletedOn(r[i].date)) != [] && r[i].amount == RevenueOn(orders, r[i].date)
    {
      RevenuePointSpec(orders, i);
    }
    forall d | Filter(orders, CompletedOn(d)) != []
      ensures || (exists i :: 0 <= i < |r| && r[i].date == d)
              || (forall i :: 0 <= i < |r| ==> d < r[i].date)
    {
      RevenueDayShownOrOlder(orders, d);
    }
  }

  /* ---------- Orders by status ---------- */

  /** `statusMap`: the reduce that counts the orders under their status. */
  function StatusMap(orders: seq<Order>): Dict<OrderStatus, int> {
    if orders == [] then []
    else
      var acc := StatusMap(orders[..|orders| - 1]);
      var o := orders[|orders| - 1];
      Put(acc, o.status, Get(acc, o.status).GetOr(0) + 1)
  }

  /** `totalOrders`. */
  function TotalOrders(orders: seq<Order>): nat {
    |orders|
  }

  /** Under each status the status map holds the number of orders in it,
      and it has no entry for a status no order is in. */
  lemma {:induction false} StatusMapGet(orders: seq<Order>, s: OrderStatus)
    ensures Get(StatusMap(orders), s)
         == if Filter(orders, HasStatus(s)) != [] then Some(|Filter(orders, HasStatus(s))|) else None
  {
    if orders != [] {
      var p, o := orders[..|orders| - 1], orders[|orders| - 1];
      StatusMapGet(p, s);
      PutGet(StatusMap(p), o.status, Get(StatusMap(p), o.status).GetOr(0) + 1, s);
    }
  }

  /** The status map's keys are distinct and its counts add up to the order
      total. */
  lemma {:induction false} StatusMapTotal(orders: seq<Order>)
    ensures Distinct(Keys(StatusMap(orders)))
    ensures Total(StatusMap(orders), Id) == TotalOrders(orders)
  {
    if orders != [] {
      var p, o := orders[..|orders| - 1], orders[|orders| - 1];
      StatusMapTotal(p);
      var acc := StatusMap(p);
      var v := Get(acc, o.status).GetOr(0) + 1;
      PutDistinct(acc, o.status, v);
      PutTotal(acc, o.status, v, Id);
    }
  }

  /** The status map lists each status that occurs exactly once, with the
      number of orders in it, and its counts add up to the order total. */
  lemma StatusMapSpec(orders: seq<Order>)
    ensures Distinct(Keys(StatusMap(orders)))
    ensures forall s :: (Get(StatusMap(orders), s)
      == if Filter(orders, HasStatus(s)) != [] then Some(|Filter(orders, HasStatus(s))|) else None)
    ensures forall s :: s in Keys(StatusMap(orders)) <==> Filter(orders, HasStatus(s)) != []
    ensures Total(StatusMap(orders), Id) == TotalOrders(orders)
  {
    forall s ensures Get(StatusMap(orders), s)
      == if Filter(orders, HasStatus(s)) != [] then Some(|Filter(orders, HasStatus(s))|) else None
    {
      StatusMapGet(orders, s);
    }
    forall s ensures s in Keys(StatusMap(orders)) <==> Filter(orders, HasStatus(s)) != [] {
      StatusMapGet(orders, s);
      GetPresent(StatusMap(orders), s);
    }
    StatusMapTotal(orders);
  }
}
