/** `getBillDetails`: the bill of a table's completed current order, with 13% tax. */
module BillController {
  import opened Common
  import opened OrderModel
  import opened TableModel
  import opened Store

  const TaxRate: real := 0.13

  datatype BillLine = BillLine(name: string, quantity: real, price: real, total: real)

  /** Amounts are exact; the `toFixed(2)` rendering of tax and total is not modelled. */
  datatype Bill = Bill(
    billId: Id,
    customerName: string,
    tableNumber: Option<string>,
    orderType: OrderType,
    paymentMethod: PaymentMethod,
    items: seq<BillLine>,
    subtotal: real,
    tax: real,
    totalAmount: real)

  datatype BillResult = BillError(response: Response) | BillReady(bill: Bill)

  /** The bill lines, one per order item in the same order, each totalling
      quantity × price. */
  function BillLines(items: seq<LineItem>): (r: seq<BillLine>)
    ensures |r| == |items|
    ensures forall i :: 0 <= i < |items| ==>
              r[i] == BillLine(items[i].name, items[i].quantity, items[i].price, items[i].quantity * items[i].price)
  {
    if |items| == 0 then []
    else [BillLine(items[0].name, items[0].quantity, items[0].price, items[0].quantity * items[0].price)]
         + BillLines(items[1..])
  }

  function LineAmount(l: BillLine): real
  {
    l.total
  }

  /** The line totals add up to Σ price × quantity over the order's items. */
  lemma {:induction false} BillLinesTotal(items: seq<LineItem>)
    ensures Sum(BillLines(items), LineAmount) == ItemsTotal(items)
  {
    if |items| > 0 {
      BillLinesTotal(items[1..]);
      assert BillLines(items)[1..] == BillLines(items[1..]);
    }
  }

  /** The bill of one order: the customer name defaults to "Guest", tax is 13% of the
      subtotal and the total is subtotal × 1.13, which is subtotal + tax. */
  function BillFor(o: Order): (b: Bill)
    requires o.subtotal.Some?
    ensures b.billId == o.id && b.tableNumber == o.tableNumber
    ensures b.customerName == (if o.customerName == "" then "Guest" else o.customerName)
    ensures b.items == BillLines(o.items) && b.subtotal == o.subtotal.value
    ensures b.tax == b.subtotal * TaxRate
    ensures b.totalAmount == b.subtotal * 1.13
    ensures b.totalAmount == b.subtotal + b.tax
    ensures b.subtotal >= 0.0 ==> b.totalAmount >= b.subtotal
  {
    var s := o.subtotal.value;
    Bill(o.id, if o.customerName == "" then "Guest" else o.customerName, o.tableNumber, o.orderType,
         o.paymentMethod, BillLines(o.items), s, s * TaxRate, s * 1.13)
  }

  /** `getBillDetails`: a missing table is 404; a table with no current order, or whose
      current order no longer exists, is "No active order"; an order that is not
      completed is refused; otherwise the bill of that order. */
  function GetBillDetails(tables: seq<Table>, orders: seq<Order>, tableNumber: string): (r: BillResult)
    requires OrdersValid(orders)
    ensures TableByNumber(tables, tableNumber).None? ==> r == BillError(Response(404, "Table not found"))
    ensures TableByNumber(tables, tableNumber).Some? ==>
              var t := tables[TableByNumber(tables, tableNumber).value];
              && (t.currentOrderId.None? ==> r == BillError(Response(400, "No active order for this table")))
              && (t.currentOrderId.Some? && OrderIndex(orders, t.currentOrderId.value).None? ==>
                    r == BillError(Response(400, "No active order for this table")))
              && (t.currentOrderId.Some? && OrderIndex(orders, t.currentOrderId.value).Some? ==>
                    var o := orders[OrderIndex(orders, t.currentOrderId.value).value];
                    && (o.status != Completed ==> r == BillError(Response(400, "Order not completed yet")))
                    && (o.status == Completed ==> r == BillReady(BillFor(o))))
  {
    match TableByNumber(tables, tableNumber)
    case None => BillError(Response(404, "Table not found"))
    case Some(k) =>
      var t := tables[k];
      if t.currentOrderId.None? then BillError(Response(400, "No active order for this table"))
      else match OrderIndex(orders, t.currentOrderId.value)
        case None => BillError(Response(400, "No active order for this table"))
        case Some(j) =>
          if orders[j].status != Completed then BillError(Response(400, "Order not completed yet"))
          else BillReady(BillFor(orders[j]))
  }

  /** Whenever a bill is produced, its lines add up to its subtotal if the order's
      subtotal was kept equal to Σ price × quantity. */
  lemma BillLinesMatchSubtotal(o: Order)
    requires o.subtotal == Some(ItemsTotal(o.items))
    ensures Sum(BillFor(o).items, LineAmount) == BillFor(o).subtotal
  {
    BillLinesTotal(o.items);
  }
}
