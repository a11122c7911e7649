/** The navigation of `components/Sidebar.tsx`: a fixed table of pages,
    each with the roles allowed to see it, filtered by the current role. */
module Sidebar {
  import opened Wrappers
  import opened Seqs
  import opened Types

  /** The pages of the application, in the order the table lists them. */
  datatype Page =
    | DashboardPage | OrdersPage | CalendarPage | ClientsPage | ExecutorsPage | PricingPage
    | VoucherPage | CommunicationsPage | IntegrationsPage | ReportsPage | ContentPage | SettingsPage

  /** A page's `id`; its label is the id capitalised and its path `/` + id,
      except the dashboard at `/`. */
  function PageId(p: Page): string {
    match p
    case DashboardPage => "dashboard"
    case OrdersPage => "orders"
    case CalendarPage => "calendar"
    case ClientsPage => "clients"
    case ExecutorsPage => "executors"
    case PricingPage => "pricing"
    case VoucherPage => "voucher"
    case CommunicationsPage => "communications"
    case IntegrationsPage => "integrations"
    case ReportsPage => "reports"
    case ContentPage => "content"
    case SettingsPage => "settings"
  }

  function PagePath(p: Page): string {
    if p == DashboardPage then "/" else "/" + PageId(p)
  }

  /** Every page has a route of its own. */
  lemma PagePathInjective(p: Page, q: Page)
    requires p != q
    ensures PagePath(p) != PagePath(q)
  {
    if p != DashboardPage && q != DashboardPage {
      assert PageId(p) != PageId(q);
      assert ("/" + PageId(p))[1..] == PageId(p);
      assert ("/" + PageId(q))[1..] == PageId(q);
    }
  }

  /** A navigation entry; `roles` is optional and an entry without it is
      shown to nobody. The icon is left out. */
  datatype NavItem = NavItem(page: Page, roles: Option<seq<UserRole>>)

  /** `navItems`, in display order. */
  const NavItems: seq<NavItem> := [
    NavItem(DashboardPage, Some([Admin, Dispatcher, Partner, Driver])),
    NavItem(OrdersPage, Some([Admin, Dispatcher, Partner, Driver])),
    NavItem(CalendarPage, Some([Admin, Dispatcher, Driver])),
    NavItem(ClientsPage, Some([Admin, Dispatcher])),
    NavItem(ExecutorsPage, Some([Admin, Dispatcher])),
    NavItem(PricingPage, Some([Admin, Accountant])),
    NavItem(VoucherPage, Some([Admin, Dispatcher, Partner])),
    NavItem(CommunicationsPage, Some([Admin, Dispatcher])),
    NavItem(IntegrationsPage, Some([Admin])),
    NavItem(ReportsPage, Some([Admin, Accountant])),
    NavItem(ContentPage, Some([Admin])),
    NavItem(SettingsPage, Some([Admin]))
  ]

  /** `item.roles?.includes(role)`: false when the list is missing. */
  function ShownTo(role: UserRole): NavItem -> bool {
    (item: NavItem) => item.roles.Some? && role in item.roles.value
  }

  /** `allowedItems`: the entries the role may see, in table order. */
  function AllowedItems(role: UserRole): (r: seq<NavItem>)
    ensures Selects(r, NavItems, ShownTo(role))
    ensures forall item :: item in r <==> item in NavItems && item.roles.Some? && role in item.roles.value
  {
    FilterSelects(NavItems, ShownTo(role));
    forall item ensures item in Filter(NavItems, ShownTo(role)) <==> item in NavItems && ShownTo(role)(item) {
      FilterIn(NavItems, ShownTo(role), item);
    }
    Filter(NavItems, ShownTo(role))
  }

  /** The table read by role rather than by page: the admin every page,
      the dispatcher the operational pages, the accountant pricing and
      reports, the driver the dashboard, orders and calendar, the partner the
      dashboard, orders and voucher. */
  function PagesFor(role: UserRole): set<Page> {
    match role
    case Admin =>
      {DashboardPage, OrdersPage, CalendarPage, ClientsPage, ExecutorsPage, PricingPage,
       VoucherPage, CommunicationsPage, IntegrationsPage, ReportsPage, ContentPage, SettingsPage}
    case Dispatcher =>
      {DashboardPage, OrdersPage, CalendarPage, ClientsPage, ExecutorsPage, VoucherPage, CommunicationsPage}
    case Accountant => {PricingPage, ReportsPage}
    case Driver => {DashboardPage, OrdersPage, CalendarPage}
    case Partner => {DashboardPage, OrdersPage, VoucherPage}
  }

  /** An entry of the table is shown to a role exactly when its page is one
      of the role's pages. */
  lemma ShownToIff(role: UserRole, item: NavItem)
    requires item in NavItems
    ensures ShownTo(role)(item) <==> item.page in PagesFor(role)
  {
  }

  /** Every entry of the table lists the admin. */
  lemma AdminSeesAll()
    ensures AllowedItems(Admin) == NavItems
  {
    FilterAll(NavItems, ShownTo(Admin));
  }

  /** The sidebar shows a role exactly the entries of its pages, in table
      order; the admin gets the whole table. */
  lemma AllowedPages(role: UserRole)
    ensures forall item :: item in AllowedItems(role) <==> item in NavItems && item.page in PagesFor(role)
    ensures IsSubsequence(AllowedItems(role), NavItems)
    ensures role == Admin ==> AllowedItems(role) == NavItems
  {
    forall item | item in NavItems ensures ShownTo(role)(item) <==> item.page in PagesFor(role) {
      ShownToIff(role, item);
    }
    if role == Admin {
      AdminSeesAll();
    }
  }
}
