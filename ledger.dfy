/** The order ledger (`MockDatabase` in `services/db.ts`): the in-memory
    store of orders, clients and executors with its append-only audit log.
    The write operations are specified by the pure functions `UpdateStatus`
    and `Regenerate`, which say what the store becomes; the clock, the
    random token and the acting user are parameters. */
module Ledger {
  import opened Wrappers
  import opened Seqs
  import opened Strings
  import opened Types
  import opened Transitions

  /** The errors the write operations throw, carrying what their messages name. */
  datatype LedgerError =
    | NotFound(orderId: string)
    | InvalidTransition(from: OrderStatus, to: OrderStatus)
    | NoVoucher

  /** `orders.findIndex(o => o.id === id)`: the first position holding `id`, or -1. */
  function FindIndex(orders: seq<Order>, id: string): (r: int)
    ensures -1 <= r < |orders|
    ensures r == -1 <==> forall i :: 0 <= i < |orders| ==> orders[i].id != id
    ensures r >= 0 ==> orders[r].id == id && forall i :: 0 <= i < r ==> orders[i].id != id
  {
    if orders == [] then -1
    else if orders[0].id == id then 0
    else
      var r := FindIndex(orders[1..], id);
      if r == -1 then -1 else r + 1
  }

  /* ---------- Invariant of the store ---------- */

  /** No two orders share an id. */
  predicate UniqueIds(orders: seq<Order>) {
    forall i, j :: 0 <= i < j < |orders| ==> orders[i].id != orders[j].id
  }

  /** The status history is a chain of allowed moves that ends at the current status. */
  predicate HistoryValid(o: Order) {
    var h := o.statusHistory;
    && (forall k :: 0 <= k < |h| ==> h[k].from.Some? && h[k].to in ValidTransitions(h[k].from.value))
    && (forall k :: 0 < k < |h| ==> h[k].from == Some(h[k - 1].to))
    && (|h| > 0 ==> h[|h| - 1].to == o.status)
  }

  /** An order's voucher belongs to it, and its history is consistent. */
  predicate OrderValid(o: Order) {
    (o.voucher.Some? ==> o.voucher.value.orderId == o.id) && HistoryValid(o)
  }

  predicate LedgerInvariant(orders: seq<Order>) {
    UniqueIds(orders) && forall i :: 0 <= i < |orders| ==> OrderValid(orders[i])
  }

  /** With unique ids, `FindIndex` finds the one order carrying the id. */
  lemma FindUnique(orders: seq<Order>, i: int)
    requires UniqueIds(orders) && 0 <= i < |orders|
    ensures FindIndex(orders, orders[i].id) == i
  {
  }

  /** The statuses an order has been through: where the history starts,
      then the target of every entry. */
  function Lifecycle(h: seq<StatusHistoryEntry>): seq<OrderStatus>
    requires h != [] && h[0].from.Some?
  {
    [h[0].from.value] + seq(|h|, k requires 0 <= k < |h| => h[k].to)
  }

  /** A consistent history is a path of the state machine; hence it never
      holds more than five entries. */
  lemma HistoryBounded(o: Order)
    requires HistoryValid(o)
    ensures o.statusHistory != [] ==> IsPath(Lifecycle(o.statusHistory))
    ensures |o.statusHistory| <= 5
  {
    var h := o.statusHistory;
    if h != [] {
      var p := Lifecycle(h);
      forall k | 0 < k < |p| ensures p[k] in ValidTransitions(p[k - 1]) {
        assert p[k] == h[k - 1].to;
        if k > 1 {
          assert p[k - 1] == h[k - 2].to;
          assert h[k - 1].from == Some(h[k - 2].to);
        }
      }
      PathBounded(p);
    }
  }

  /* ---------- updateOrderStatus ---------- */

  /** `{...order, status, statusHistory: [...history, entry], updatedAt}`. */
  function WithStatus(o: Order, to: OrderStatus, userId: string, reason: Option<string>, now: Millis): Order {
    o.(status := to,
       statusHistory := o.statusHistory + [StatusHistoryEntry(Some(o.status), to, now, userId, reason)],
       updatedAt := now)
  }

  /** The audit entry of a status change; its id is the clock's reading as text. */
  function StatusLog(orderId: string, from: OrderStatus, to: OrderStatus, userId: string, now: Millis): AuditLog {
    AuditLog(IntToString(now), orderId, OrderEntity, StatusChange, now, userId,
             "Status changed from " + StatusName(from) + " to " + StatusName(to))
  }

  /** What a successful write produces: the new order list, the returned value, the audit entry. */
  datatype Write<T> = Write(orders: seq<Order>, result: T, log: AuditLog)

  /** `updateOrderStatus` on the stored `orders`. */
  function UpdateStatus(orders: seq<Order>, orderId: string, newStatus: OrderStatus,
                        userId: string, reason: Option<string>, now: Millis): Result<Write<Order>, LedgerError>
  {
    var i := FindIndex(orders, orderId);
    if i == -1 then Failure(NotFound(orderId))
    else if newStatus !in ValidTransitions(orders[i].status) then
      Failure(InvalidTransition(orders[i].status, newStatus))
    else
      var o := WithStatus(orders[i], newStatus, userId, reason, now);
      Success(Write(orders[i := o], o, StatusLog(orderId, orders[i].status, newStatus, userId, now)))
  }

  /** An unknown id is reported as not found. */
  lemma UpdateStatusUnknown(orders: seq<Order>, orderId: string, newStatus: OrderStatus,
                            userId: string, reason: Option<string>, now: Millis)
    requires forall i :: 0 <= i < |orders| ==> orders[i].id != orderId
    ensures UpdateStatus(orders, orderId, newStatus, userId, reason, now) == Failure(NotFound(orderId))
  {
  }

  /** On the order at `i`: a move outside the table (every move out of a
      terminal status) is refused; an allowed move replaces that order only,
      with the new status and exactly one more history entry recording who
      moved it from where, and yields one ORDER / STATUS_CHANGE audit entry. */
  lemma UpdateStatusAt(orders: seq<Order>, i: int, newStatus: OrderStatus,
                       userId: string, reason: Option<string>, now: Millis)
    requires UniqueIds(orders) && 0 <= i < |orders|
    ensures var r := UpdateStatus(orders, orders[i].id, newStatus, userId, reason, now);
      && (IsTerminal(orders[i].status) ==> r.Failure?)
      && (newStatus !in ValidTransitions(orders[i].status) ==>
            r == Failure(InvalidTransition(orders[i].status, newStatus)))
      && (newStatus in ValidTransitions(orders[i].status) ==>
            && r.Success?
            && |r.value.orders| == |orders|
            && (forall j :: 0 <= j < |orders| && j != i ==> r.value.orders[j] == orders[j])
            && var old_, new_ := orders[i], r.value.orders[i];
               && new_ == r.value.result
               && new_.status == newStatus
               && |new_.statusHistory| == |old_.statusHistory| + 1
               && new_.statusHistory[..|old_.statusHistory|] == old_.statusHistory
               && new_.statusHistory[|old_.statusHistory|]
                  == StatusHistoryEntry(Some(old_.status), newStatus, now, userId, reason)
               && new_.(statusHistory := old_.statusHistory, status := old_.status, updatedAt := old_.updatedAt) == old_
               && new_.updatedAt == now
               && r.value.log.entityId == old_.id
               && r.value.log.entityType == OrderEntity
               && r.value.log.action == StatusChange
               && r.value.log.performedBy == userId)
  {
    FindUnique(orders, i);
    TableShape(orders[i].status, newStatus);
  }

  /** Replacing one order by a consistent order with the same id keeps the invariant. */
  lemma ReplaceKeepsInvariant(orders: seq<Order>, i: int, o: Order)
    requires LedgerInvariant(orders) && 0 <= i < |orders|
    requires OrderValid(o) && o.id == orders[i].id
    ensures LedgerInvariant(orders[i := o])
  {
    var next := orders[i := o];
    forall j | 0 <= j < |next| ensures OrderValid(next[j]) {
      if j != i {
        assert next[j] == orders[j];
      }
    }
  }

  /** An allowed move extends a consistent history consistently: the new
      entry starts where the history ended and ends at the new status. */
  lemma WithStatusValid(o: Order, to: OrderStatus, userId: string, reason: Option<string>, now: Millis)
    requires OrderValid(o) && to in ValidTransitions(o.status)
    ensures OrderValid(WithStatus(o, to, userId, reason, now))
  {
    var h, h' := o.statusHistory, WithStatus(o, to, userId, reason, now).statusHistory;
    forall k | 0 < k < |h'| ensures h'[k].from == Some(h'[k - 1].to) {
      if k == |h| {
        assert h[|h| - 1].to == o.status;
      } else {
        assert h'[k] == h[k] && h'[k - 1] == h[k - 1];
      }
    }
    forall k | 0 <= k < |h'|
      ensures h'[k].from.Some? && h'[k].to in ValidTransitions(h'[k].from.value)
    {
      if k < |h| {
        assert h'[k] == h[k];
      }
    }
  }

  /** A successful status change keeps the store's invariant; in particular
      the last history entry's target is the new status. */
  lemma UpdateStatusKeepsInvariant(orders: seq<Order>, orderId: string, newStatus: OrderStatus,
                                   userId: string, reason: Option<string>, now: Millis)
    requires LedgerInvariant(orders)
    requires UpdateStatus(orders, orderId, newStatus, userId, reason, now).Success?
    ensures LedgerInvariant(UpdateStatus(orders, orderId, newStatus, userId, reason, now).value.orders)
  {
    var i := FindIndex(orders, orderId);
    WithStatusValid(orders[i], newStatus, userId, reason, now);
    ReplaceKeepsInvariant(orders, i, WithStatus(orders[i], newStatus, userId, reason, now));
  }

  /* ---------- regenerateVoucher ---------- */

  /** `{...voucher, token, isActive: true, generatedAt}`. */
  function Regenerated(v: Voucher, token: string, now: Millis): Voucher {
    v.(token := token, isActive := true, generatedAt := now)
  }

  /** The audit entry of a voucher regeneration. */
  function VoucherLog(orderId: string, userId: string, now: Millis): AuditLog {
    AuditLog(IntToString(now), orderId, VoucherEntity, RegenerateToken, now, userId,
             "Voucher regenerated. Old token invalidated.")
  }

  /** `regenerateVoucher` on the stored `orders`, `token` standing for the random draw. */
  function Regenerate(orders: seq<Order>, orderId: string, userId: string,
                      token: string, now: Millis): Result<Write<Voucher>, LedgerError>
  {
    var i := FindIndex(orders, orderId);
    if i == -1 then Failure(NotFound(orderId))
    else if orders[i].voucher.None? then Failure(NoVoucher)
    else
      var v := Regenerated(orders[i].voucher.value, token, now);
      Success(Write(orders[i := orders[i].(voucher := Some(v))], v, VoucherLog(orderId, userId, now)))
  }

  /** An unknown id is reported as not found. */
  lemma RegenerateUnknown(orders: seq<Order>, orderId: string, userId: string, token: string, now: Millis)
    requires forall i :: 0 <= i < |orders| ==> orders[i].id != orderId
    ensures Regenerate(orders, orderId, userId, token, now) == Failure(NotFound(orderId))
  {
  }

  /** On the order at `i`: without a voucher the call fails; with one, the
      voucher gets the new token and time and becomes active (whatever the
      order's status, cancelled included), keeps its order id and expiry, the
      order changes in nothing else, other orders not at all, and one
      VOUCHER / REGENERATE_TOKEN audit entry is produced. */
  lemma RegenerateAt(orders: seq<Order>, i: int, userId: string, token: string, now: Millis)
    requires UniqueIds(orders) && 0 <= i < |orders|
    ensures var r := Regenerate(orders, orders[i].id, userId, token, now);
      && (orders[i].voucher.None? ==> r == Failure(NoVoucher))
      && (orders[i].voucher.Some? ==>
            && r.Success?
            && |r.value.orders| == |orders|
            && (forall j :: 0 <= j < |orders| && j != i ==> r.value.orders[j] == orders[j])
            && var v, v' := orders[i].voucher.value, r.value.result;
               && r.value.orders[i] == orders[i].(voucher := Some(v'))
               && v'.token == token && v'.isActive && v'.generatedAt == now
               && v'.orderId == v.orderId && v'.expiresAt == v.expiresAt
               && r.value.log.entityId == orders[i].id
               && r.value.log.entityType == VoucherEntity
               && r.value.log.action == RegenerateToken
               && r.value.log.performedBy == userId)
  {
    FindUnique(orders, i);
  }

  /** A successful regeneration keeps the store's invariant. */
  lemma RegenerateKeepsInvariant(orders: seq<Order>, orderId: string, userId: string, token: string, now: Millis)
    requires LedgerInvariant(orders)
    requires Regenerate(orders, orderId, userId, token, now).Success?
    ensures LedgerInvariant(Regenerate(orders, orderId, userId, token, now).value.orders)
  {
    var i := FindIndex(orders, orderId);
    var o := orders[i].(voucher := Some(Regenerated(orders[i].voucher.value, token, now)));
    assert OrderValid(orders[i]);
    ReplaceKeepsInvariant(orders, i, o);
  }

  /* ---------- Read queries ---------- */

  /** The dashboard counters of `getStats`. */
  datatype Stats = Stats(totalOrders: nat, activeOrders: nat, completedToday: nat, revenue: int)

  /** Status in `[NEW, CONFIRMED, ASSIGNED, IN_PROGRESS]`. */
  predicate IsActive(o: Order) {
    o.status in [New, Confirmed, Assigned, InProgress]
  }

  /** Completed and scheduled on `today`. */
  function CompletedOn(today: Day): Order -> bool {
    (o: Order) => o.status == Completed && o.date == today
  }

  function Amount(o: Order): int { o.amount }

  function OrderDate(o: Order): int { o.date }

  /* ---------- Seed data ---------- */

  const SeedSize: nat := 50

  const SeedClients: seq<Client> := [
    Client("CL-101", "Acme Corp Travel", "corp@acme.com", "+15550101", B2B, 12),
    Client("CL-102", "John Doe", "john@gmail.com", "+15550102", B2C, 1),
    Client("CL-103", "Global Tech Summit", "events@global.com", "+15550103", B2B, 45),
    Client("CL-104", "Alice Smith", "alice@yahoo.com", "+15550104", B2C, 3),
    Client("CL-105", "Consulting Partners LLC", "travel@consult.com", "+15550105", B2B, 8)
  ]

  const SeedExecutors: seq<Executor> := [
    Executor("EX-001", "Mike Ross", "+15550201", "Mercedes V-Class (Black)", Active),
    Executor("EX-002", "Harvey Specter", "+15550202", "Cadillac Escalade", Busy),
    Executor("EX-003", "Louis Litt", "+15550203", "BMW 7 Series", Offline)
  ]

  const SeedRoutes: seq<Route> := [
    Route("JFK Airport", "Manhattan Content Center"),
    Route("Brooklyn Heights", "LGA Airport"),
    Route("Newark Airport", "Stamford, CT"),
    Route("Central Park", "SoHo Hotel"),
    Route("Wall St", "JFK Airport")
  ]

  /** The outcomes of `Math.random` for one seeded order: `floor(random * n)`
      for the day (n = 37), client, route, amount (n = 500) and executor, the
      two comparisons `random > 0.8` and `random > 0.5`, and the token text. */
  datatype SeedDraw = SeedDraw(
    dayRoll: int, cancelRoll: bool, confirmRoll: bool, clientRoll: int,
    routeRoll: int, amountRoll: int, executorRoll: int, token: string)

  predicate DrawInRange(d: SeedDraw) {
    && 0 <= d.dayRoll < 37
    && 0 <= d.clientRoll < |SeedClients|
    && 0 <= d.routeRoll < |SeedRoutes|
    && 0 <= d.amountRoll < 500
    && 0 <= d.executorRoll < |SeedExecutors|
  }

  /** `ORD-${7700 + i}`. */
  function SeedId(i: nat): string {
    "ORD-" + NatToString(7700 + i)
  }

  lemma SeedIdInjective(i: nat, j: nat)
    requires i != j
    ensures SeedId(i) != SeedId(j)
  {
    if SeedId(i) == SeedId(j) {
      assert NatToString(7700 + i) == SeedId(i)[4..];
      assert NatToString(7700 + j) == SeedId(j)[4..];
      NatToStringInjective(7700 + i, 7700 + j);
    }
  }

  /** `toISOString().split('T')[0]` of a timestamp, as a day number. */
  function DayOf(t: Millis): Day {
    t / DayMillis
  }

  /** Past days are completed or cancelled, today is in progress, future
      days are new or confirmed. */
  function SeedStatus(dayOffset: int, d: SeedDraw): OrderStatus {
    if dayOffset < 0 then (if d.cancelRoll then Cancelled else Completed)
    else if dayOffset == 0 then InProgress
    else if d.confirmRoll then Confirmed else New
  }

  /** The `i`-th seeded order, `todayMs` being the clock at start-up. */
  function SeedOrder(i: nat, todayMs: Millis, d: SeedDraw): Order
    requires DrawInRange(d)
  {
    var dayOffset := d.dayRoll - 30;
    var dateMs := todayMs + dayOffset * DayMillis;
    var status := SeedStatus(dayOffset, d);
    var client := SeedClients[d.clientRoll];
    var id := SeedId(i);
    Order(
      id, client.id, client.name,
      if status != New && status != Confirmed then Some(SeedExecutors[d.executorRoll].id) else None,
      d.amountRoll + 50, "USD", status, DayOf(dateMs), SeedRoutes[d.routeRoll], [],
      Some(Voucher(id, d.token, status != Cancelled, dateMs, dateMs + 1000 * 60 * 60 * 48)),
      dateMs, dateMs)
  }

  /** Appending the next seeded order to the ones before it keeps the
      ledger invariant: its id is new and its voucher names it. */
  lemma SeedAppendKeepsInvariant(orders: seq<Order>, todayMs: Millis, draws: seq<SeedDraw>)
    requires |orders| < |draws|
    requires forall k :: 0 <= k < |draws| ==> DrawInRange(draws[k])
    requires forall k :: 0 <= k < |orders| ==> orders[k] == SeedOrder(k, todayMs, draws[k])
    requires LedgerInvariant(orders)
    ensures LedgerInvariant(orders + [SeedOrder(|orders|, todayMs, draws[|orders|])])
  {
    var i := |orders|;
    var o := SeedOrder(i, todayMs, draws[i]);
    SeedOrderShape(i, todayMs, draws[i]);
    forall k | 0 <= k < i ensures orders[k].id != o.id {
      SeedOrderShape(k, todayMs, draws[k]);
      SeedIdInjective(k, i);
    }
  }

  /** What every seeded order looks like: its voucher is its own, valid for
      48 hours and active unless cancelled; its history is empty; its amount
      lies in 50..549; it has an executor exactly when it is past `Confirmed`;
      and its status follows the day offset, which lies in -30..6. */
  lemma SeedOrderShape(i: nat, todayMs: Millis, d: SeedDraw)
    requires DrawInRange(d)
    ensures var o := SeedOrder(i, todayMs, d);
      && o.id == SeedId(i)
      && o.voucher.Some? && o.voucher.value.orderId == o.id
      && o.voucher.value.expiresAt == o.voucher.value.generatedAt + 48 * 60 * 60 * 1000
      && (o.voucher.value.isActive <==> o.status != Cancelled)
      && o.statusHistory == []
      && 50 <= o.amount < 550
      && (o.executorId.Some? <==> o.status !in [New, Confirmed])
      && (o.status in [Completed, Cancelled] <==> d.dayRoll - 30 < 0)
      && (o.status == InProgress <==> d.dayRoll == 30)
      && -30 <= d.dayRoll - 30 <= 6
      && OrderValid(o)
  {
  }

  /* ---------- The store ---------- */

  class MockDatabase {
    var orders: seq<Order>
    var clients: seq<Client>
    var executors: seq<Executor>
    var auditLogs: seq<AuditLog>

    ghost predicate Valid()
      reads this
    {
      LedgerInvariant(orders)
    }

    /** Seeds the clients, the executors and fifty orders. */
    constructor (todayMs: Millis, draws: seq<SeedDraw>)
      requires |draws| == SeedSize
      requires forall i :: 0 <= i < |draws| ==> DrawInRange(draws[i])
      ensures Valid()
      ensures |orders| == SeedSize
      ensures forall i :: 0 <= i < SeedSize ==> orders[i] == SeedOrder(i, todayMs, draws[i])
      ensures clients == SeedClients && executors == SeedExecutors && auditLogs == []
    {
      clients := SeedClients;
      executors := SeedExecutors;
      orders := [];
      auditLogs := [];
      new;
      for i := 0 to SeedSize
        invariant |orders| == i
        invariant forall k :: 0 <= k < i ==> orders[k] == SeedOrder(k, todayMs, draws[k])
        invariant LedgerInvariant(orders)
        invariant clients == SeedClients && executors == SeedExecutors && auditLogs == []
      {
        SeedAppendKeepsInvariant(orders, todayMs, draws);
        orders := orders + [SeedOrder(i, todayMs, draws[i])];
      }
    }

    /** `getOrders`: a copy of the orders, latest date first; the store
        itself is not reordered. */
    function GetOrders(): (r: seq<Order>)
      reads this
      ensures multiset(r) == multiset(orders) && |r| == |orders|
      ensures SortedDesc(r, OrderDate)
    {
      SortDesc(orders, OrderDate)
    }

    /** The sort is stable: orders on the same day keep their stored order. */
    lemma GetOrdersKeepsTies(d: Day)
      ensures Filter(GetOrders(), KeyIs(OrderDate, d)) == Filter(orders, KeyIs(OrderDate, d))
    {
      SortStable(orders, OrderDate, d);
    }

    /** `getStats`, `today` being the current ISO date: the counts are the
        numbers of positions holding an active order and an order completed
        today. The two kinds are disjoint, so together they never exceed the
        total. */
    function GetStats(today: Day): (s: Stats)
      reads this
      ensures s.totalOrders == |orders|
      ensures s.activeOrders == |Positions(orders, IsActive)|
      ensures s.completedToday == |Positions(orders, CompletedOn(today))|
      ensures s.activeOrders + s.completedToday <= s.totalOrders
    {
      FilterDisjoint(orders, IsActive, CompletedOn(today));
      FilterCount(orders, IsActive);
      FilterCount(orders, CompletedOn(today));
      Stats(|orders|, |Filter(orders, IsActive)|, |Filter(orders, CompletedOn(today))|, Sum(orders, Amount))
    }

    /** `updateOrderStatus`: validates the move, then replaces the order and
        appends one audit entry; a failure changes nothing. */
    method UpdateOrderStatus(orderId: string, newStatus: OrderStatus, userId: string,
                             reason: Option<string>, now: Millis)
      returns (r: Result<Order, LedgerError>)
      requires Valid()
      modifies this
      ensures Valid()
      ensures clients == old(clients) && executors == old(executors)
      ensures match UpdateStatus(old(orders), orderId, newStatus, userId, reason, now)
        case Failure(e) => r == Failure(e) && orders == old(orders) && auditLogs == old(auditLogs)
        case Success(w) =>
          r == Success(w.result) && orders == w.orders && auditLogs == old(auditLogs) + [w.log]
    {
      var orderIndex := FindIndex(orders, orderId);
      if orderIndex == -1 {
        return Failure(NotFound(orderId));
      }
      var order := orders[orderIndex];
      var currentStatus := order.status;
      var allowed := ValidTransitions(currentStatus);
      if newStatus !in allowed {
        return Failure(InvalidTransition(currentStatus, newStatus));
      }
      var log := StatusLog(orderId, currentStatus, newStatus, userId, now);
      var updatedOrder := WithStatus(order, newStatus, userId, reason, now);
      UpdateStatusKeepsInvariant(orders, orderId, newStatus, userId, reason, now);
      orders := orders[orderIndex := updatedOrder];
      auditLogs := auditLogs + [log];
      return Success(updatedOrder);
    }

    /** `regenerateVoucher`: gives the order's voucher a new token and appends
        one audit entry; a failure changes nothing. */
    method RegenerateVoucher(orderId: string, userId: string, newToken: string, now: Millis)
      returns (r: Result<Voucher, LedgerError>)
      requires Valid()
      modifies this
      ensures Valid()
      ensures clients == old(clients) && executors == old(executors)
      ensures match Regenerate(old(orders), orderId, userId, newToken, now)
        case Failure(e) => r == Failure(e) && orders == old(orders) && auditLogs == old(auditLogs)
        case Success(w) =>
          r == Success(w.result) && orders == w.orders && auditLogs == old(auditLogs) + [w.log]
    {
      var orderIndex := FindIndex(orders, orderId);
      if orderIndex == -1 {
        return Failure(NotFound(orderId));
      }
      var order := orders[orderIndex];
      if order.voucher.None? {
        return Failure(NoVoucher);
      }
      var newVoucher := Regenerated(order.voucher.value, newToken, now);
      var log := VoucherLog(orderId, userId, now);
      RegenerateKeepsInvariant(orders, orderId, userId, newToken, now);
      orders := orders[orderIndex := order.(voucher := Some(newVoucher))];
      auditLogs := auditLogs + [log];
      return Success(newVoucher);
    }
  }

  /** One allowed move of the order at `i`: it succeeds, keeps the
      invariant and the order's place and id, and lengthens its history by one. */
  lemma StatusStep(orders: seq<Order>, i: int, to: OrderStatus, userId: string, now: Millis)
    requires LedgerInvariant(orders) && 0 <= i < |orders| && to in ValidTransitions(orders[i].status)
    ensures var r := UpdateStatus(orders, orders[i].id, to, userId, None, now);
      && r.Success?
      && LedgerInvariant(r.value.orders)
      && |r.value.orders| == |orders|
      && r.value.orders[i].id == orders[i].id
      && r.value.orders[i].status == to
      && |r.value.orders[i].statusHistory| == |orders[i].statusHistory| + 1
  {
    FindUnique(orders, i);
    UpdateStatusKeepsInvariant(orders, orders[i].id, to, userId, None, now);
  }

  /** The lifecycle scenario: an order in `New` cannot jump to `Assigned`,
      can be confirmed (one history entry more) and then assigned (one
      more), and cannot then be completed before it is in progress and
      picked up. */
  /** No allowed move leads to New, so a consistent order still at New has
      an empty history. */
  lemma NewHasNoHistory(o: Order)
    requires HistoryValid(o) && o.status == New
    ensures o.statusHistory == []
  {
    var h := o.statusHistory;
    if h != [] {
      var last := h[|h| - 1];
      TableShape(last.from.value, New);
      assert false;
    }
  }

  lemma StatusScenario(orders: seq<Order>, i: int, userId: string, now: Millis)
    requires LedgerInvariant(orders) && 0 <= i < |orders| && orders[i].status == New
    ensures var id := orders[i].id;
      var r1 := UpdateStatus(orders, id, Confirmed, userId, None, now);
      && UpdateStatus(orders, id, Assigned, userId, None, now) == Failure(InvalidTransition(New, Assigned))
      && r1.Success?
      && |r1.value.orders| == |orders|
      && r1.value.orders[i].status == Confirmed
      && |r1.value.orders[i].statusHistory| == |orders[i].statusHistory| + 1 == 1
      && var r2 := UpdateStatus(r1.value.orders, id, Assigned, userId, None, now);
      && r2.Success?
      && |r2.value.orders| == |orders|
      && r2.value.orders[i].status == Assigned
      && |r2.value.orders[i].statusHistory| == |orders[i].statusHistory| + 2 == 2
      && UpdateStatus(r2.value.orders, id, Completed, userId, None, now)
         == Failure(InvalidTransition(Assigned, Completed))
  {
    assert Assigned !in ValidTransitions(New) && Completed !in ValidTransitions(Assigned);
    var id := orders[i].id;
    NewHasNoHistory(orders[i]);
    FindUnique(orders, i);
    StatusStep(orders, i, Confirmed, userId, now);
    var o1 := UpdateStatus(orders, id, Confirmed, userId, None, now).value.orders;
    assert o1[i].id == id && o1[i].status == Confirmed;
    StatusStep(o1, i, Assigned, userId, now);
    var o2 := UpdateStatus(o1, id, Assigned, userId, None, now).value.orders;
    assert o2[i].id == id && o2[i].status == Assigned;
    FindUnique(o2, i);
  }
}
