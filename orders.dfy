/**
 * The order history page: filtering the orders by status for its tabs and
 * the status badge's colour class and icon.
 */
module Orders {
  import opened Wrappers
  import opened Seqs

  /** An order as the page lists it (its line items and shipping address are
      display-only and left out). */
  datatype Order = Order(id: string, date: string, status: string, total: real, trackingNumber: Option<string>)

  /** The three orders the page lists. */
  const MockOrders: seq<Order> := [
    Order("ORD-001", "2024-01-15", "delivered", 149.99, Some("TRK123456789")),
    Order("ORD-002", "2024-01-10", "shipped", 89.99, Some("TRK987654321")),
    Order("ORD-003", "2024-01-08", "processing", 199.99, None)
  ]

  // ---------------------------------------------------------------------------
  // filterOrdersByStatus

  /** `'all'` returns the list itself; any other status keeps the orders
      with exactly that status. */
  function FilterOrdersByStatus(orders: seq<Order>, status: string): seq<Order> {
    if status == "all" then orders else Filter(orders, (o: Order) => o.status == status)
  }

  /** The result is the whole list for `'all'`; otherwise it is exactly the
      orders with that status, each as often as in the list, in list order,
      and never longer than the list. */
  lemma FilterOrdersMeaning(orders: seq<Order>, status: string)
    ensures status == "all" ==> FilterOrdersByStatus(orders, status) == orders
    ensures status != "all" ==>
      forall o :: multiset(FilterOrdersByStatus(orders, status))[o] == if o.status == status then multiset(orders)[o] else 0
    ensures IsSubsequence(FilterOrdersByStatus(orders, status), orders)
    ensures |FilterOrdersByStatus(orders, status)| <= |orders|
  {
    if status != "all" {
      FilterCounts(orders, (o: Order) => o.status == status);
      FilterIsSubsequence(orders, (o: Order) => o.status == status);
    } else {
      SubsequenceOfItself(orders);
    }
  }

  lemma {:induction false} SubsequenceOfItself(s: seq<Order>)
    ensures IsSubsequence(s, s)
    decreases |s|
  {
    if s != [] {
      SubsequenceOfItself(s[1..]);
    }
  }

  /** Tabs for two different statuses never show the same order. */
  lemma StatusTabsDisjoint(orders: seq<Order>, s1: string, s2: string)
    requires s1 != "all" && s2 != "all" && s1 != s2
    ensures forall o :: o in FilterOrdersByStatus(orders, s1) ==> o !in FilterOrdersByStatus(orders, s2)
  {
  }

  // ---------------------------------------------------------------------------
  // Status badge

  const GrayClass := "bg-gray-100 text-gray-800"

  predicate KnownStatus(status: string) {
    status == "delivered" || status == "shipped" || status == "processing" || status == "cancelled"
  }

  function StatusColor(status: string): (r: string)
    ensures r == GrayClass <==> !KnownStatus(status)
  {
    match status
    case "delivered" => "bg-green-100 text-green-800"
    case "shipped" => "bg-blue-100 text-blue-800"
    case "processing" => "bg-yellow-100 text-yellow-800"
    case "cancelled" => "bg-red-100 text-red-800"
    case _ => GrayClass
  }

  /** The four known statuses get four different classes. */
  lemma StatusColorsDistinct(s1: string, s2: string)
    requires KnownStatus(s1) && KnownStatus(s2) && s1 != s2
    ensures StatusColor(s1) != StatusColor(s2)
  {
  }

  /** The package icon is the fallback for unknown statuses. */
  const DefaultIcon := "\U{1F4E6}"

  function StatusIcon(status: string): (r: string)
    ensures r == DefaultIcon <==> !KnownStatus(status)
  {
    match status
    case "delivered" => "\U{2705}"
    case "shipped" => "\U{1F69A}"
    case "processing" => "\U{23F3}"
    case "cancelled" => "\U{274C}"
    case _ => DefaultIcon
  }

  /** The four known statuses get four different icons. */
  lemma StatusIconsDistinct(s1: string, s2: string)
    requires KnownStatus(s1) && KnownStatus(s2) && s1 != s2
    ensures StatusIcon(s1) != StatusIcon(s2)
  {
  }

  // ---------------------------------------------------------------------------
  // Tabs

  datatype TabView = OrderList(orders: seq<Order>) | EmptyMessage(text: string)

  /** The count in a tab's label. */
  function TabCount(orders: seq<Order>, tab: string): (n: nat)
    ensures n <= |orders|
    ensures tab == "all" ==> n == |orders|
  {
    |FilterOrdersByStatus(orders, tab)|
  }

  /** What a tab shows: the filtered list, except the "cancelled" tab, which
      always shows its empty message. */
  function TabContent(orders: seq<Order>, tab: string): (v: TabView)
    ensures tab == "cancelled" ==> v == EmptyMessage("No cancelled orders found.")
    ensures tab != "cancelled" ==> v == OrderList(FilterOrdersByStatus(orders, tab))
  {
    if tab == "cancelled" then EmptyMessage("No cancelled orders found.")
    else OrderList(FilterOrdersByStatus(orders, tab))
  }

  /** The "cancelled" tab says there are none even when its label counts
      some. */
  lemma CancelledTabIgnoresOrders()
    ensures var orders := [Order("ORD-9", "2024-02-01", "cancelled", 10.0, None)];
      TabCount(orders, "cancelled") == 1 && TabContent(orders, "cancelled").EmptyMessage?
  {
    var orders := [Order("ORD-9", "2024-02-01", "cancelled", 10.0, None)];
    assert orders[0] in FilterOrdersByStatus(orders, "cancelled") by {
      FilterOrdersMeaning(orders, "cancelled");
      assert multiset(orders)[orders[0]] == 1;
    }
  }

  /** With the page's own orders the "cancelled" count is zero, so its empty
      message is accurate there. */
  lemma MockOrdersHaveNoCancelled()
    ensures TabCount(MockOrders, "cancelled") == 0
    ensures TabCount(MockOrders, "all") == 3
  {
    assert MockOrders[1..][1..][1..] == [];
  }
}
