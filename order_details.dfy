/** The table's order details page: per-order and grand totals from the line items, and
    the print flow that completes the table's orders first. */
module OrderDetails {
  import opened Common
  import opened OrderModel

  /** `getOrderSubtotal`: Σ price × quantity over the items, 0 when the order has none. */
  function OrderSubtotal(items: Option<seq<LineItem>>): (r: real)
    ensures items.None? ==> r == 0.0
    ensures items.Some? ==> r == ItemsTotal(items.value)
  {
    ItemsTotal(items.GetOr([]))
  }

  function DocSubtotal(o: Order): real
  {
    OrderSubtotal(Some(o.items))
  }

  /** `grandTotal` over the loaded orders. */
  function GrandTotal(orders: seq<Order>): real
  {
    Sum(orders, DocSubtotal)
  }

  /** Loading one more order raises the grand total by that order's own subtotal. */
  lemma GrandTotalAppend(orders: seq<Order>, o: Order)
    ensures GrandTotal(orders + [o]) == GrandTotal(orders) + ItemsTotal(o.items)
  {
    SumAppend(orders, [o], DocSubtotal);
    SumSingleton(o, DocSubtotal);
  }

  lemma {:induction false} ItemsTotalNonNegative(items: seq<LineItem>)
    requires forall i :: 0 <= i < |items| ==> ItemValid(items[i])
    ensures ItemsTotal(items) >= 0.0
  {
    if |items| > 0 {
      ItemsTotalNonNegative(items[1..]);
      assert LineTotal(items[0]) >= 0.0 by {
        assert items[0].price >= 0.01 && items[0].quantity >= 1.0;
      }
    }
  }

  lemma {:induction false} GrandTotalNonNegative(orders: seq<Order>)
    requires forall i :: 0 <= i < |orders| ==> OrderValid(orders[i])
    ensures GrandTotal(orders) >= 0.0
  {
    if |orders| > 0 {
      ItemsTotalNonNegative(orders[0].items);
      GrandTotalNonNegative(orders[1..]);
    }
  }

  /** What `PUT /orders/complete` answered: `response.ok`, the body's message ("" when
      absent) and its counts (absent on an error body). */
  datatype CompleteReply = CompleteReply(ok: bool, message: string, matchedCount: Option<nat>,
                                         modifiedCount: Option<nat>)

  /** The alert after a failure, or the orders the page holds when it prints. */
  datatype PrintResult = PrintFailed(alert: string) | Printed(orders: seq<Order>)

  const AlertPrefix := "Failed to complete orders: "

  /** Every loaded order shown as completed. */
  function AllCompleted(orders: seq<Order>): (r: seq<Order>)
    ensures |r| == |orders|
    ensures forall i :: 0 <= i < |orders| ==> r[i] == orders[i].(status := Completed)
  {
    seq(|orders|, i requires 0 <= i < |orders| => orders[i].(status := Completed))
  }

  /** `handlePrint`: a missing table number, a non-ok reply, or a reply that matched no
      order ends in an alert; otherwise the page prints, with every order shown as
      completed when the reply modified any. */
  function HandlePrint(tableNumber: string, reply: CompleteReply, orders: seq<Order>): (r: PrintResult)
    ensures tableNumber == "" ==> r == PrintFailed(AlertPrefix + "Table number is missing")
    ensures tableNumber != "" && !reply.ok ==>
              r == PrintFailed(AlertPrefix + (if reply.message != "" then reply.message else "Failed to complete orders"))
    ensures tableNumber != "" && reply.ok && reply.matchedCount == Some(0) ==>
              r == PrintFailed(AlertPrefix + "No active orders found to complete")
    ensures r.Printed? <==> tableNumber != "" && reply.ok && reply.matchedCount != Some(0)
    ensures r.Printed? && reply.modifiedCount.Some? && reply.modifiedCount.value > 0 ==> r.orders == AllCompleted(orders)
    ensures r.Printed? && !(reply.modifiedCount.Some? && reply.modifiedCount.value > 0) ==> r.orders == orders
  {
    if tableNumber == "" then PrintFailed(AlertPrefix + "Table number is missing")
    else if !reply.ok then
      PrintFailed(AlertPrefix + (if reply.message != "" then reply.message else "Failed to complete orders"))
    else if reply.matchedCount == Some(0) then PrintFailed(AlertPrefix + "No active orders found to complete")
    else if reply.modifiedCount.Some? && reply.modifiedCount.value > 0 then Printed(AllCompleted(orders))
    else Printed(orders)
  }

  lemma {:induction false} AllCompletedKeepsTotal(orders: seq<Order>)
    ensures GrandTotal(AllCompleted(orders)) == GrandTotal(orders)
  {
    if |orders| > 0 {
      AllCompletedKeepsTotal(orders[1..]);
      assert AllCompleted(orders)[1..] == AllCompleted(orders[1..]);
    }
  }

  /** Printing never changes the amounts on the bill: marking orders completed keeps
      their items. */
  lemma PrintKeepsGrandTotal(tableNumber: string, reply: CompleteReply, orders: seq<Order>)
    requires HandlePrint(tableNumber, reply, orders).Printed?
    ensures GrandTotal(HandlePrint(tableNumber, reply, orders).orders) == GrandTotal(orders)
  {
    AllCompletedKeepsTotal(orders);
  }
}
