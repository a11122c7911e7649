/** The records and enumerations of the order ledger. ISO dates
    (`YYYY-MM-DD`) are day numbers: for such strings lexicographic order is
    chronological order, so comparing day numbers is comparing the strings.
    Timestamps are milliseconds since the epoch. */
module Types {
  import opened Wrappers

  /** An ISO calendar date, as a day number. */
  type Day = int

  /** A point in time, in milliseconds since the epoch. */
  type Millis = int

  /** Milliseconds in a day. */
  const DayMillis: nat := 1000 * 60 * 60 * 24

  datatype UserRole = Admin | Dispatcher | Driver | Partner | Accountant

  datatype User = User(id: string, name: string, role: UserRole)

  datatype OrderStatus =
    | New | Confirmed | Assigned | InProgress | PickedUp | Completed | NoShow | Cancelled

  /** One recorded status change of an order; `from` is `None` for `null`. */
  datatype StatusHistoryEntry = StatusHistoryEntry(
    from: Option<OrderStatus>,
    to: OrderStatus,
    timestamp: Millis,
    changedBy: string,
    reason: Option<string>)

  datatype EntityType = OrderEntity | ClientEntity | ExecutorEntity | VoucherEntity

  datatype AuditAction = Create | Update | Delete | StatusChange | RegenerateToken

  /** An immutable record of one mutation. */
  datatype AuditLog = AuditLog(
    id: string,
    entityId: string,
    entityType: EntityType,
    action: AuditAction,
    timestamp: Millis,
    performedBy: string,
    details: string)

  datatype ClientType = B2B | B2C

  datatype Client = Client(
    id: string, name: string, email: string, phone: string, kind: ClientType, totalOrders: int)

  datatype ExecutorStatus = Active | Busy | Offline

  datatype Executor = Executor(
    id: string, name: string, phone: string, vehicle: string, status: ExecutorStatus)

  /** A passenger's bearer token for one order. */
  datatype Voucher = Voucher(
    orderId: string,
    token: string,
    isActive: bool,
    generatedAt: Millis,
    expiresAt: Millis)

  datatype Route = Route(from: string, to: string)

  datatype Order = Order(
    id: string,
    clientId: string,
    clientName: string,
    executorId: Option<string>,
    amount: int,
    currency: string,
    status: OrderStatus,
    date: Day,
    route: Route,
    statusHistory: seq<StatusHistoryEntry>,
    voucher: Option<Voucher>,
    createdAt: Millis,
    updatedAt: Millis)

  /** The enumeration's string value, as it appears in messages. */
  function StatusName(s: OrderStatus): string {
    match s
    case New => "NEW"
    case Confirmed => "CONFIRMED"
    case Assigned => "ASSIGNED"
    case InProgress => "IN_PROGRESS"
    case PickedUp => "PICKED_UP"
    case Completed => "COMPLETED"
    case NoShow => "NO_SHOW"
    case Cancelled => "CANCELLED"
  }
}
