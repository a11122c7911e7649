/** The schedule of `pages/Calendar.tsx`: the visible orders grouped by
    date, and the dates newest first. */
module Calendar {
  import opened Wrappers
  import opened Seqs
  import opened Dict
  import opened Types
  import opened Ledger

  /** The orders of one day, in list order. */
  function DayOrders(orders: seq<Order>, d: Day): seq<Order> {
    Filter(orders, KeyIs(OrderDate, d))
  }

  /** The filter predicate behind `DayOrders`. */
  lemma OnDay(o: Order, d: Day)
    ensures KeyIs(OrderDate, d)(o) <==> o.date == d
  {
    assert OrderDate(o) == o.date;
  }

  function Size(g: seq<Order>): int {
    |g|
  }

  /** The grouping the reduce builds, one order at a time: the order is
      pushed onto its date's group, which is created empty on first use. */
  function Grouped(orders: seq<Order>): Dict<Day, seq<Order>> {
    if orders == [] then []
    else
      var acc := Grouped(orders[..|orders| - 1]);
      var o := orders[|orders| - 1];
      Put(acc, o.date, Get(acc, o.date).GetOr([]) + [o])
  }

  /** The reduce step for one more order. */
  lemma GroupedSnoc(p: seq<Order>, o: Order)
    ensures Grouped(p + [o]) == Put(Grouped(p), o.date, Get(Grouped(p), o.date).GetOr([]) + [o])
  {
    assert (p + [o])[..|p|] == p;
  }

  /** Each date with an order holds exactly that day's orders, in list
      order; a date without orders has no group. */
  lemma {:induction false} GroupedGet(orders: seq<Order>, d: Day)
    ensures Get(Grouped(orders), d) == if DayOrders(orders, d) != [] then Some(DayOrders(orders, d)) else None
  {
    if orders != [] {
      var p, o := orders[..|orders| - 1], orders[|orders| - 1];
      assert p + [o] == orders;
      GroupedGet(p, d);
      var acc := Grouped(p);
      GroupedSnoc(p, o);
      PutGet(acc, o.date, Get(acc, o.date).GetOr([]) + [o], d);
      FilterSnoc(p, o, KeyIs(OrderDate, d));
    }
  }

  /** No date is listed twice, and the group sizes add up to the number of
      orders. */
  lemma {:induction false} GroupedTotal(orders: seq<Order>)
    ensures Distinct(Keys(Grouped(orders)))
    ensures Total(Grouped(orders), Size) == |orders|
  {
    if orders != [] {
      var p, o := orders[..|orders| - 1], orders[|orders| - 1];
      assert p + [o] == orders;
      GroupedTotal(p);
      var acc := Grouped(p);
      var g := Get(acc, o.date).GetOr([]) + [o];
      GroupedSnoc(p, o);
      PutDistinct(acc, o.date, g);
      assert Total(Put(acc, o.date, g), Size) == Total(acc, Size) + 1 by {
        PutTotal(acc, o.date, g, Size);
        assert (match Get(acc, o.date) case Some(w) => Size(w) case None => 0) == |g| - 1;
      }
    }
  }

  /** `groupedOrders`: the reduce written as the loop it performs, creating
      a date's group on first sight and pushing each order onto it. */
  method GroupByDate(orders: seq<Order>) returns (groups: Dict<Day, seq<Order>>)
    ensures groups == Grouped(orders)
    ensures Distinct(Keys(groups))
    ensures forall d :: (Get(groups, d)
      == if DayOrders(orders, d) != [] then Some(DayOrders(orders, d)) else None)
    ensures forall d, o :: o in orders ==>
      (Get(groups, d).Some? && o in Get(groups, d).value <==> o.date == d)
    ensures Total(groups, Size) == |orders|
  {
    groups := [];
    for i := 0 to |orders|
      invariant groups == Grouped(orders[..i])
    {
      ghost var before := groups;
      var date := orders[i].date;
      if Get(groups, date).None? {
        PutGet(groups, date, [], date);
        PutTwice(groups, date, [], [] + [orders[i]]);
        groups := Put(groups, date, []);
      }
      groups := Put(groups, date, Get(groups, date).value + [orders[i]]);
      assert groups == Put(before, date, Get(before, date).GetOr([]) + [orders[i]]);
      assert orders[..i + 1] == orders[..i] + [orders[i]];
      GroupedSnoc(orders[..i], orders[i]);
    }
    assert orders[..|orders|] == orders;
    forall d ensures Get(groups, d) == if DayOrders(orders, d) != [] then Some(DayOrders(orders, d)) else None {
      GroupedGet(orders, d);
    }
    forall d, o | o in orders
      ensures Get(groups, d).Some? && o in Get(groups, d).value <==> o.date == d
    {
      GroupedGet(orders, d);
      FilterIn(orders, KeyIs(OrderDate, d), o);
      OnDay(o, d);
    }
    GroupedTotal(orders);
  }

  /** `sortedDates`: the group dates, newest first. */
  function SortedDates(groups: Dict<Day, seq<Order>>): seq<Day> {
    SortDesc(Keys(groups), Id)
  }

  /** The dates of the schedule are strictly descending and are exactly the
      dates that have an order, each once. */
  lemma SortedDatesSpec(orders: seq<Order>)
    ensures Distinct(SortedDates(Grouped(orders)))
    ensures forall i, j :: 0 <= i < j < |SortedDates(Grouped(orders))| ==>
      SortedDates(Grouped(orders))[i] > SortedDates(Grouped(orders))[j]
    ensures forall d :: d in SortedDates(Grouped(orders)) <==> exists o :: o in orders && o.date == d
  {
    var g := Grouped(orders);
    var ds := SortedDates(g);
    assert Distinct(ds) by {
      GroupedTotal(orders);
      DistinctPermutation(Keys(g), ds);
    }
    SortedDistinctStrict(ds);
    forall d ensures d in ds <==> exists o :: o in orders && o.date == d {
      DateListed(orders, d);
    }
  }

  /** A date is among the group keys exactly when some order has it. */
  lemma DateListed(orders: seq<Order>, d: Day)
    ensures d in SortedDates(Grouped(orders)) <==> exists o :: o in orders && o.date == d
  {
    var g := Grouped(orders);
    assert d in SortDesc(Keys(g), Id) <==> d in Keys(g) by {
      assert d in SortDesc(Keys(g), Id) <==> d in multiset(SortDesc(Keys(g), Id));
      assert d in Keys(g) <==> d in multiset(Keys(g));
    }
    GroupedGet(orders, d);
    GetPresent(g, d);
    if exists o :: o in orders && o.date == d {
      var o :| o in orders && o.date == d;
      FilterIn(orders, KeyIs(OrderDate, d), o);
      OnDay(o, d);
    } else if DayOrders(orders, d) != [] {
      var o := DayOrders(orders, d)[0];
      FilterIn(orders, KeyIs(OrderDate, d), o);
      OnDay(o, d);
    }
  }
}
