/** The order list of `pages/Orders.tsx`: the search box and status filter,
    the role flags, and the status actions offered in the order drawer. */
module OrdersPage {
  import opened Wrappers
  import opened Seqs
  import opened Strings
  import opened Types
  import opened Transitions
  import opened Ledger
  import opened DataContext

  /** The status drop-down: every status, or one of them. */
  datatype StatusFilter = All | Only(status: OrderStatus)

  /** The row predicate: the lower-cased query occurs in the lower-cased id
      or client name, and the status passes the drop-down. */
  function Matches(query: string, filter: StatusFilter): Order -> bool {
    (o: Order) =>
      var matchesSearch := Includes(ToLower(o.id), ToLower(query)) || Includes(ToLower(o.clientName), ToLower(query));
      var matchesStatus := filter == All || o.status == filter.status;
      matchesSearch && matchesStatus
  }

  /** `filteredOrders`: the rows kept, in the list's order. */
  function FilteredOrders(orders: seq<Order>, query: string, filter: StatusFilter): (r: seq<Order>)
    ensures Selects(r, orders, Matches(query, filter))
  {
    FilterSelects(orders, Matches(query, filter));
    Filter(orders, Matches(query, filter))
  }

  /** A row is kept exactly when the query occurs somewhere in its
      lower-cased id or client name and the drop-down lets its status pass. */
  lemma MatchesIff(query: string, filter: StatusFilter, o: Order)
    ensures Matches(query, filter)(o) <==>
      && ((exists i :: OccursAt(ToLower(o.id), ToLower(query), i))
          || (exists i :: OccursAt(ToLower(o.clientName), ToLower(query), i)))
      && (filter.All? || filter.status == o.status)
  {
    IncludesIff(ToLower(o.id), ToLower(query));
    IncludesIff(ToLower(o.clientName), ToLower(query));
  }

  /** The initial page state, an empty query and "All Statuses", shows
      every order. */
  lemma EmptySearchKeepsAll(orders: seq<Order>)
    ensures FilteredOrders(orders, "", All) == orders
  {
    forall o | o in orders ensures Matches("", All)(o) {
      IncludesEmpty(ToLower(o.id));
    }
    FilterAll(orders, Matches("", All));
  }

  /** Narrowing the drop-down to one status never adds a row. */
  lemma StatusFilterNarrows(orders: seq<Order>, query: string, s: OrderStatus)
    ensures |FilteredOrders(orders, query, Only(s))| <= |FilteredOrders(orders, query, All)|
    ensures forall o :: o in FilteredOrders(orders, query, Only(s)) <==>
                        o in FilteredOrders(orders, query, All) && o.status == s
  {
    var kept := FilteredOrders(orders, query, Only(s));
    var all := FilteredOrders(orders, query, All);
    forall o ensures o in kept <==> o in orders && Matches(query, Only(s))(o) {
      FilterIn(orders, Matches(query, Only(s)), o);
    }
    forall o ensures o in all <==> o in orders && Matches(query, All)(o) {
      FilterIn(orders, Matches(query, All), o);
    }
    assert forall i :: 0 <= i < |kept| ==> Matches(query, All)(kept[i]) by {
      forall i | 0 <= i < |kept| ensures Matches(query, All)(kept[i]) {
        assert kept[i] in kept;
      }
    }
    SubsequenceBound(kept, orders, Matches(query, All));
  }

  /** `canEdit`: only admins and dispatchers get the create-order button. */
  predicate CanEdit(role: UserRole) {
    role in [Admin, Dispatcher]
  }

  /** `showFinancials`: amounts are hidden from drivers only. */
  predicate ShowFinancials(role: UserRole) {
    role != Driver
  }

  /** The two flags against the role table: editors also see amounts and
      every order; the roles whose order list is projected are not editors,
      and of those the driver alone loses the amounts. */
  lemma RoleFlags(role: UserRole, all: seq<Order>)
    ensures CanEdit(role) ==> ShowFinancials(role) && VisibleOrders(MockUser(role), all) == all
    ensures CanEdit(role) <==> role == Admin || role == Dispatcher
    ensures !ShowFinancials(role) <==> role == Driver
    ensures role == Driver || role == Partner ==> !CanEdit(role)
  {
    MockUsersMatchSeed(role);
  }

  /** The buttons of the "Available Actions" panel, in table order: none on
      a terminal status, and otherwise only moves forward in the lifecycle,
      never back to New and never to the current status. */
  function AvailableActions(status: OrderStatus): (r: seq<OrderStatus>)
    ensures forall t :: t in r <==> t in ValidTransitions(status)
    ensures r == [] <==> IsTerminal(status)
    ensures forall t :: t in r ==> t != New && t != status && Stage(status) < Stage(t)
    ensures |r| <= 3
  {
    ValidTransitions(status)
  }

  /** The "No further actions available (Terminal State)" notice. */
  predicate ShowsTerminalNotice(status: OrderStatus) {
    |AvailableActions(status)| == 0
  }

  /** The notice shows exactly on the three terminal statuses, which are
      exactly the statuses with no button. */
  lemma TerminalNoticeIff(status: OrderStatus)
    ensures ShowsTerminalNotice(status) <==> IsTerminal(status)
    ensures ShowsTerminalNotice(status) <==> status in [Completed, NoShow, Cancelled]
  {
    TableShape(status, status);
  }

  /** The buttons offered for a listed order are exactly the moves the
      ledger accepts for it: pressing one succeeds, and any other target is
      refused as an invalid transition. */
  lemma ActionsAreAccepted(orders: seq<Order>, i: int, t: OrderStatus,
                           userId: string, now: Millis)
    requires UniqueIds(orders) && 0 <= i < |orders|
    ensures t in AvailableActions(orders[i].status) <==>
            UpdateStatus(orders, orders[i].id, t, userId, None, now).Success?
    ensures t !in AvailableActions(orders[i].status) ==>
            UpdateStatus(orders, orders[i].id, t, userId, None, now)
              == Failure(InvalidTransition(orders[i].status, t))
  {
    UpdateStatusAt(orders, i, t, userId, None, now);
  }
}
