/** The voucher list of `pages/Voucher.tsx`: the visible orders that carry a
    voucher and are not cancelled. */
module VoucherPage {
  import opened Wrappers
  import opened Seqs
  import opened Types
  import opened Ledger

  /** The row predicate: a voucher is present and the order is not
      cancelled; the voucher's own `isActive` flag is not consulted. */
  function Listed(o: Order): bool {
    o.voucher.Some? && o.status != Cancelled
  }

  /** `activeVouchers`: the listed orders, in list order. */
  function ActiveVouchers(orders: seq<Order>): (r: seq<Order>)
    ensures Selects(r, orders, Listed)
    ensures forall o :: o in r ==> o in orders && o.voucher.Some? && o.status != Cancelled
    ensures forall o :: o in orders && o.voucher.Some? && o.status != Cancelled ==> o in r
  {
    FilterSelects(orders, Listed);
    Filter(orders, Listed)
  }

  /** Regenerating a voucher leaves the list's membership as it was: it
      changes the token, never whether a voucher exists or the status. */
  lemma RegenerateKeepsListing(orders: seq<Order>, i: int, userId: string, token: string, now: Millis)
    requires UniqueIds(orders) && 0 <= i < |orders|
    requires Regenerate(orders, orders[i].id, userId, token, now).Success?
    ensures var after := Regenerate(orders, orders[i].id, userId, token, now).value.orders;
      && |after| == |orders|
      && forall j :: 0 <= j < |orders| ==> (Listed(after[j]) <==> Listed(orders[j]))
  {
    RegenerateAt(orders, i, userId, token, now);
  }

  /** The ledger reactivates the voucher of a cancelled order on
      regeneration, yet this page never lists that order: the page, not the
      voucher flag, keeps cancelled orders out. */
  lemma CancelledStaysUnlisted(orders: seq<Order>, i: int, userId: string, token: string, now: Millis)
    requires UniqueIds(orders) && 0 <= i < |orders|
    requires orders[i].status == Cancelled && orders[i].voucher.Some?
    ensures var w := Regenerate(orders, orders[i].id, userId, token, now);
      && w.Success? && w.value.result.isActive
      && w.value.orders[i] !in ActiveVouchers(w.value.orders)
  {
    RegenerateAt(orders, i, userId, token, now);
  }

  /** On the seeded ledger the page agrees with the voucher flag: an order is
      listed exactly when its voucher is active. */
  lemma SeedListingMatchesFlag(i: nat, todayMs: Millis, d: SeedDraw)
    requires DrawInRange(d)
    ensures var o := SeedOrder(i, todayMs, d);
      Listed(o) <==> o.voucher.Some? && o.voucher.value.isActive
  {
    SeedOrderShape(i, todayMs, d);
  }
}
