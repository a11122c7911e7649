/** The data provider of `contexts/DataContext.tsx`: it holds the current
    user and the orders that user may see, projects the ledger's orders by
    role on every refresh, and forwards writes to the ledger with the
    current user as actor. */
module DataContext {
  import opened Wrappers
  import opened Seqs
  import opened Types
  import opened Ledger

  /** `MOCK_USERS`: the demo user of each role. */
  function MockUser(role: UserRole): User {
    match role
    case Admin => User("USR-001", "Admin User", Admin)
    case Dispatcher => User("USR-002", "Dispatcher Dave", Dispatcher)
    case Driver => User("EX-001", "Mike Ross", Driver)
    case Partner => User("CL-101", "Acme Corp", Partner)
    case Accountant => User("USR-003", "Angela Martin", Accountant)
  }

  /** Each demo user has the role it is filed under; the driver is the first
      seeded executor and the partner the first seeded client. */
  lemma MockUsersMatchSeed(role: UserRole)
    ensures MockUser(role).role == role
    ensures MockUser(Driver).id == SeedExecutors[0].id
    ensures MockUser(Partner).id == SeedClients[0].id
  {
  }

  /** Whether `user` may see order `o`: drivers the orders assigned to them,
      partners their own orders, every other role all orders. */
  function CanSee(user: User): Order -> bool {
    (o: Order) =>
      match user.role
      case Driver => o.executorId == Some(user.id)
      case Partner => o.clientId == user.id
      case _ => true
  }

  /** The role-based projection applied after every fetch. */
  function VisibleOrders(user: User, all: seq<Order>): (r: seq<Order>)
    ensures Selects(r, all, CanSee(user))
    ensures user.role == Driver ==> forall o :: o in r <==> o in all && o.executorId == Some(user.id)
    ensures user.role == Partner ==> forall o :: o in r <==> o in all && o.clientId == user.id
    ensures user.role !in [Driver, Partner] ==> r == all
  {
    if user.role == Driver || user.role == Partner then
      FilterSelects(all, CanSee(user));
      Filter(all, CanSee(user))
    else
      FilterAll(all, CanSee(user));
      FilterSelects(all, CanSee(user));
      all
  }

  class DataProvider {
    const db: MockDatabase
    var currentUser: User
    var orders: seq<Order>
    var clients: seq<Client>
    var executors: seq<Executor>
    var stats: Stats

    ghost predicate Valid()
      reads this, db
    {
      db.Valid()
    }

    /** The provider's initial state: the admin user, nothing loaded yet. */
    constructor (db: MockDatabase)
      requires db.Valid()
      ensures Valid() && this.db == db
      ensures currentUser == MockUser(Admin)
      ensures orders == [] && clients == [] && executors == [] && stats == Stats(0, 0, 0, 0)
    {
      this.db := db;
      currentUser := MockUser(Admin);
      orders, clients, executors := [], [], [];
      stats := Stats(0, 0, 0, 0);
    }

    /** `refreshData`: fetches everything, keeps the orders the user may see,
        and the global stats whatever the role. */
    method RefreshData(userOverride: Option<User>, today: Day)
      requires Valid()
      modifies this
      ensures Valid() && currentUser == old(currentUser)
      ensures orders == VisibleOrders(userOverride.GetOr(currentUser), db.GetOrders())
      ensures stats == db.GetStats(today)
      ensures clients == db.clients && executors == db.executors
      ensures |orders| <= stats.totalOrders
    {
      var user := userOverride.GetOr(currentUser);
      var allOrders := db.GetOrders();
      var filteredOrders := allOrders;
      if user.role == Driver || user.role == Partner {
        filteredOrders := Filter(allOrders, CanSee(user));
      }
      orders := filteredOrders;
      clients := db.clients;
      executors := db.executors;
      stats := db.GetStats(today);
    }

    /** `switchRole`: becomes the role's demo user and refreshes for it. */
    method SwitchRole(role: UserRole, today: Day)
      requires Valid()
      modifies this
      ensures Valid() && currentUser == MockUser(role)
      ensures orders == VisibleOrders(MockUser(role), db.GetOrders())
      ensures stats == db.GetStats(today)
      ensures clients == db.clients && executors == db.executors
    {
      currentUser := MockUser(role);
      RefreshData(Some(MockUser(role)), today);
    }

    /** `updateOrder`: the ledger write with the current user as actor, then a
        refresh; a ledger failure is passed on and nothing is refreshed. */
    method UpdateOrder(orderId: string, status: OrderStatus, now: Millis, today: Day)
      returns (r: Outcome<LedgerError>)
      requires Valid()
      modifies this, db
      ensures Valid() && currentUser == old(currentUser)
      ensures db.clients == old(db.clients) && db.executors == old(db.executors)
      ensures match UpdateStatus(old(db.orders), orderId, status, old(currentUser).id, None, now)
        case Failure(e) =>
          r == Fail(e) && unchanged(this) && db.orders == old(db.orders) && db.auditLogs == old(db.auditLogs)
        case Success(w) =>
          && r == Pass && db.orders == w.orders && db.auditLogs == old(db.auditLogs) + [w.log]
          && orders == VisibleOrders(currentUser, db.GetOrders()) && stats == db.GetStats(today)
          && clients == db.clients && executors == db.executors
    {
      var result := db.UpdateOrderStatus(orderId, status, currentUser.id, None, now);
      if result.Failure? {
        return Fail(result.error);
      }
      RefreshData(None, today);
      return Pass;
    }

    /** `regenerateVoucher`: the ledger write with the current user as actor,
        then a refresh; a ledger failure is passed on. */
    method RegenerateVoucher(orderId: string, newToken: string, now: Millis, today: Day)
      returns (r: Outcome<LedgerError>)
      requires Valid()
      modifies this, db
      ensures Valid() && currentUser == old(currentUser)
      ensures db.clients == old(db.clients) && db.executors == old(db.executors)
      ensures match Regenerate(old(db.orders), orderId, old(currentUser).id, newToken, now)
        case Failure(e) =>
          r == Fail(e) && unchanged(this) && db.orders == old(db.orders) && db.auditLogs == old(db.auditLogs)
        case Success(w) =>
          && r == Pass && db.orders == w.orders && db.auditLogs == old(db.auditLogs) + [w.log]
          && orders == VisibleOrders(currentUser, db.GetOrders()) && stats == db.GetStats(today)
          && clients == db.clients && executors == db.executors
    {
      var result := db.RegenerateVoucher(orderId, currentUser.id, newToken, now);
      if result.Failure? {
        return Fail(result.error);
      }
      RefreshData(None, today);
      return Pass;
    }
  }
}
