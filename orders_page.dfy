/** The admin orders page: the fetched page of orders newest first, its local status and
    kitchen updates, the grouped bill, the search and filter chain, the status badge
    classes and the paging buttons. */
module OrdersPage {
  import opened Common
  import opened OrderModel
  import opened Sorting

  /** An order document as listed, with its creation time (milliseconds since the
      epoch). */
  datatype ListedOrder = ListedOrder(doc: Order, createdAt: int)

  /** What `GET /orders/filter` returned: the `orders` field when it is an array and the
      `totalPages` field, or a failed request. */
  datatype OrdersFetch = OrdersReply(orders: Option<seq<ListedOrder>>, totalPages: Option<nat>) | FetchFailed

  function CreatedKey(): ListedOrder -> SortKey
  {
    (o: ListedOrder) => Num(o.createdAt as real)
  }

  /** The list and page count after a fetch: the orders sorted newest first on a copy,
      `[]` when the field is not an array or the request failed, and one page unless a
      non-zero count came back. */
  function AfterFetch(fetch: OrdersFetch): (r: (seq<ListedOrder>, nat))
    ensures r.1 >= 1
    ensures fetch.OrdersReply? && fetch.orders.Some? ==>
              && SortedBy(r.0, CreatedKey(), true)
              && multiset(r.0) == multiset(fetch.orders.value)
    ensures fetch.FetchFailed? || fetch.orders.None? ==> r.0 == []
    ensures fetch.OrdersReply? && fetch.totalPages.Some? && fetch.totalPages.value != 0 ==> r.1 == fetch.totalPages.value
    ensures fetch.FetchFailed? || fetch.totalPages.None? || fetch.totalPages.value == 0 ==> r.1 == 1
  {
    match fetch
    case FetchFailed => ([], 1)
    case OrdersReply(orders, totalPages) =>
      var pages := if totalPages.Some? && totalPages.value != 0 then totalPages.value else 1;
      match orders
      case None => ([], pages)
      case Some(list) =>
        SortCorrect(list, CreatedKey(), true);
        (Sort(list, CreatedKey(), true), pages)
  }

  /** Orders created at the same moment keep the server's order. */
  lemma SameTimeKeepsServerOrder(list: seq<ListedOrder>, totalPages: Option<nat>)
    requires forall i :: 0 <= i < |list| ==> list[i].createdAt == list[0].createdAt
    ensures AfterFetch(OrdersReply(Some(list), totalPages)).0 == list
  {
    SortTiesKeepOrder(list, CreatedKey(), true);
  }

  function CreatedAt(time: int): ListedOrder -> bool
  {
    (o: ListedOrder) => o.createdAt == time
  }

  /** The newest-first sort is stable: for every creation time, the orders created then
      appear in the server's order. */
  lemma NewestFirstIsStable(list: seq<ListedOrder>, totalPages: Option<nat>, time: int)
    ensures Filter(AfterFetch(OrdersReply(Some(list), totalPages)).0, CreatedAt(time)) == Filter(list, CreatedAt(time))
  {
    var sorted := Sort(list, CreatedKey(), true);
    var k := Num(time as real);
    SortStable(list, CreatedKey(), true, k);
    FilterSamePredicate(sorted, CreatedAt(time), KeyIs(CreatedKey(), k));
    FilterSamePredicate(list, CreatedAt(time), KeyIs(CreatedKey(), k));
  }

  /** The local update after a successful status change: only the orders with that id
      take the new status; everything else is kept. */
  function StatusChanged(orders: seq<ListedOrder>, orderId: Id, status: OrderStatus): (r: seq<ListedOrder>)
    ensures |r| == |orders|
    ensures forall i :: 0 <= i < |orders| && orders[i].doc.id == orderId ==>
              r[i] == orders[i].(doc := orders[i].doc.(status := status))
    ensures forall i :: 0 <= i < |orders| && orders[i].doc.id != orderId ==> r[i] == orders[i]
  {
    seq(|orders|, i requires 0 <= i < |orders| =>
      if orders[i].doc.id == orderId then orders[i].(doc := orders[i].doc.(status := status)) else orders[i])
  }

  /** The local update after a successful send-to-kitchen: the order is flagged sent and
      shown as in progress. */
  function SentToKitchen(orders: seq<ListedOrder>, orderId: Id): (r: seq<ListedOrder>)
    ensures |r| == |orders|
    ensures forall i :: 0 <= i < |orders| && orders[i].doc.id == orderId ==>
              r[i].doc.sentToKOT && r[i].doc.status == InProgress
              && r[i] == orders[i].(doc := orders[i].doc.(sentToKOT := true, status := InProgress))
    ensures forall i :: 0 <= i < |orders| && orders[i].doc.id != orderId ==> r[i] == orders[i]
  {
    seq(|orders|, i requires 0 <= i < |orders| =>
      if orders[i].doc.id == orderId then orders[i].(doc := orders[i].doc.(sentToKOT := true, status := InProgress))
      else orders[i])
  }

  /** The server only sets the flag, so for an order that was not in progress the page
      shows a status the stored order does not have. */
  lemma KitchenViewDiffersFromServer(orders: seq<ListedOrder>, i: nat)
    requires i < |orders| && orders[i].doc.status != InProgress
    ensures SentToKitchen(orders, orders[i].doc.id)[i].doc != orders[i].doc.(sentToKOT := true)
  {
  }

  /** Whether `o` goes on the bill generated from `order`: same type and customer, and
      for dine-in the same table. */
  predicate SameBill(order: Order, o: Order)
  {
    && o.orderType == order.orderType
    && o.customerName == order.customerName
    && (order.orderType == DineIn ==> o.tableNumber == order.tableNumber)
  }

  function OnBillOf(order: Order): ListedOrder -> bool
  {
    (o: ListedOrder) => SameBill(order, o.doc)
  }

  /** `o.subtotal || 0`. */
  function SubtotalOrZero(o: ListedOrder): real
  {
    o.doc.subtotal.GetOr(0.0)
  }

  /** `handleGenerateBill`: the grouped orders and their total. */
  function BillGroup(orders: seq<ListedOrder>, order: Order): (r: seq<ListedOrder>)
    ensures forall x :: x in r <==> x in orders && SameBill(order, x.doc)
    ensures SelectedAt(r, orders, OnBillOf(order), KeptPositions(orders, OnBillOf(order)))
  {
    FilterMembership(orders, OnBillOf(order));
    FilterSelects(orders, OnBillOf(order));
    Filter(orders, OnBillOf(order))
  }

  /** The bill's total: the subtotals of exactly the listed orders on the bill, each
      counted as often as it is listed. */
  function BillTotal(orders: seq<ListedOrder>, order: Order): (r: real)
    ensures r == Sum(orders, Masked(OnBillOf(order), SubtotalOrZero))
  {
    SumFilter(orders, OnBillOf(order), SubtotalOrZero);
    Sum(BillGroup(orders, order), SubtotalOrZero)
  }

  lemma {:induction false} FilterSamePredicate(orders: seq<ListedOrder>, p: ListedOrder -> bool, q: ListedOrder -> bool)
    requires forall i :: 0 <= i < |orders| ==> p(orders[i]) == q(orders[i])
    ensures Filter(orders, p) == Filter(orders, q)
  {
    if |orders| > 0 {
      FilterSamePredicate(orders[1..], p, q);
    }
  }

  /** Generating the bill from any order on it gives the same group and the same total:
      grouping is an equivalence. */
  lemma BillFromAnyMember(orders: seq<ListedOrder>, order: Order, other: ListedOrder)
    requires other in BillGroup(orders, order)
    ensures BillGroup(orders, other.doc) == BillGroup(orders, order)
    ensures BillTotal(orders, other.doc) == BillTotal(orders, order)
  {
    FilterSamePredicate(orders, OnBillOf(other.doc), OnBillOf(order));
  }

  lemma {:induction false} SubtotalsNonNegative(group: seq<ListedOrder>)
    requires forall i :: 0 <= i < |group| ==> SubtotalOrZero(group[i]) >= 0.0
    ensures Sum(group, SubtotalOrZero) >= 0.0
  {
    if |group| > 0 {
      SubtotalsNonNegative(group[1..]);
    }
  }

  /** Stored orders have non-negative subtotals, so a bill never totals below zero. */
  lemma BillTotalNonNegative(orders: seq<ListedOrder>, order: Order)
    requires forall i :: 0 <= i < |orders| ==> OrderValid(orders[i].doc)
    ensures BillTotal(orders, order) >= 0.0
  {
    var g := BillGroup(orders, order);
    assert forall i :: 0 <= i < |g| ==> g[i] in orders;
    SubtotalsNonNegative(g);
  }

  /** The search box: the customer name or the order type contains the term ignoring
      case, or the table number contains it as typed. */
  predicate SearchMatches(searchTerm: string, o: Order)
  {
    || Contains(Lower(o.customerName), Lower(searchTerm))
    || Contains(Lower(OrderTypeName(o.orderType)), Lower(searchTerm))
    || (Truthy(o.tableNumber) && Contains(o.tableNumber.value, searchTerm))
  }

  predicate TypeMatches(typeFilter: string, o: Order)
  {
    typeFilter == "all" || OrderTypeName(o.orderType) == typeFilter
  }

  predicate StatusMatches(statusFilter: string, o: Order)
  {
    statusFilter == "all" || StatusName(o.status) == statusFilter
  }

  function BySearch(searchTerm: string): ListedOrder -> bool
  {
    (o: ListedOrder) => SearchMatches(searchTerm, o.doc)
  }

  function ByType(typeFilter: string): ListedOrder -> bool
  {
    (o: ListedOrder) => TypeMatches(typeFilter, o.doc)
  }

  function ByStatus(statusFilter: string): ListedOrder -> bool
  {
    (o: ListedOrder) => StatusMatches(statusFilter, o.doc)
  }

  function BySearchAndType(searchTerm: string, typeFilter: string): ListedOrder -> bool
  {
    (o: ListedOrder) => SearchMatches(searchTerm, o.doc) && TypeMatches(typeFilter, o.doc)
  }

  /** All three filters at once. */
  function ByAll(searchTerm: string, typeFilter: string, statusFilter: string): ListedOrder -> bool
  {
    (o: ListedOrder) => SearchMatches(searchTerm, o.doc) && TypeMatches(typeFilter, o.doc)
                        && StatusMatches(statusFilter, o.doc)
  }

  /** `filteredOrders` without the date filter: the three filters in a row keep exactly
      the orders passing all three, in list order. */
  function FilteredOrders(orders: seq<ListedOrder>, searchTerm: string, typeFilter: string, statusFilter: string)
    : (r: seq<ListedOrder>)
    ensures SelectedAt(r, orders, ByAll(searchTerm, typeFilter, statusFilter),
                       KeptPositions(orders, ByAll(searchTerm, typeFilter, statusFilter)))
    ensures forall o :: o in r <==>
              (o in orders && SearchMatches(searchTerm, o.doc) && TypeMatches(typeFilter, o.doc)
               && StatusMatches(statusFilter, o.doc))
  {
    var searched := Filter(orders, BySearch(searchTerm));
    var typed := Filter(searched, ByType(typeFilter));
    FilterMembership(orders, BySearch(searchTerm));
    FilterMembership(searched, ByType(typeFilter));
    FilterMembership(typed, ByStatus(statusFilter));
    FilterTwice(orders, BySearch(searchTerm), ByType(typeFilter), BySearchAndType(searchTerm, typeFilter));
    FilterTwice(orders, BySearchAndType(searchTerm, typeFilter), ByStatus(statusFilter),
                ByAll(searchTerm, typeFilter, statusFilter));
    FilterSelects(orders, ByAll(searchTerm, typeFilter, statusFilter));
    Filter(typed, ByStatus(statusFilter))
  }

  /** An empty search with both filters on "all" lists every order. */
  lemma OpenFiltersListEverything(orders: seq<ListedOrder>, o: ListedOrder)
    requires o in orders
    ensures o in FilteredOrders(orders, "", "all", "all")
  {
    LowerEmpty();
    ContainsEmpty(Lower(o.doc.customerName));
  }

  const GrayClass := "bg-gray-100 text-gray-800"

  /** `getStatusClass`. */
  function StatusClass(status: string): (r: string)
    ensures r == GrayClass <==> ParseStatus(status).None?
  {
    match ParseStatus(status)
    case Some(Pending) => "bg-yellow-100 text-yellow-800"
    case Some(InProgress) => "bg-blue-100 text-blue-800"
    case Some(Completed) => "bg-green-100 text-green-800"
    case Some(Cancelled) => "bg-red-100 text-red-800"
    case Some(Delivered) => "bg-purple-100 text-purple-800"
    case None => GrayClass
  }

  /** The five statuses get five different classes. */
  lemma StatusClassesDistinct(a: OrderStatus, b: OrderStatus)
    ensures a != b ==> StatusClass(StatusName(a)) != StatusClass(StatusName(b))
  {
    EnumNamesRoundTrip(DineIn, Counter, a);
    EnumNamesRoundTrip(DineIn, Counter, b);
  }

  /** `handleNextPage`. */
  function NextPage(page: int, totalPages: int): (r: int)
    ensures page < totalPages ==> r == page + 1
    ensures page >= totalPages ==> r == page
  {
    if page < totalPages then page + 1 else page
  }

  /** `handlePreviousPage`. */
  function PreviousPage(page: int): (r: int)
    ensures page > 1 ==> r == page - 1
    ensures page <= 1 ==> r == page
  {
    if page > 1 then page - 1 else page
  }

  /** The buttons keep a page between 1 and the page count. */
  lemma PagingStaysInRange(page: int, totalPages: int)
    requires 1 <= page <= totalPages
    ensures 1 <= NextPage(page, totalPages) <= totalPages
    ensures 1 <= PreviousPage(page) <= totalPages
  {
  }
}
