/** The point-of-sale panel: the total after discount, the credit still owed, the change
    due, the payment method label, and the checkout request it sends to createBill and
    the slice update it dispatches after it. */
module PosPanel {
  import opened Common
  import opened PosModel
  import opened PosCart
  import opened PosSlice
  import opened PosController

  function PanelTotal(subtotal: real, discount: real): real
  {
    subtotal - discount
  }

  /** What cash and online payment leave unpaid, or 0. */
  function PanelCredit(total: real, cash: real, online: real): (r: real)
    ensures r >= 0.0 && r >= total - (cash + online)
    ensures r == 0.0 || r == total - (cash + online)
  {
    if total - (cash + online) > 0.0 then total - (cash + online) else 0.0
  }

  /** What cash and online payment exceed the total by, or 0. */
  function PanelChange(total: real, cash: real, online: real): (r: real)
    ensures r >= 0.0 && r >= cash + online - total
    ensures r == 0.0 || r == cash + online - total
  {
    if cash + online - total > 0.0 then cash + online - total else 0.0
  }

  /** Credit minus change is the total less what was paid, so at most one of them is
      positive. */
  lemma PanelBalance(subtotal: real, discount: real, cash: real, online: real)
    ensures var total := PanelTotal(subtotal, discount);
            PanelCredit(total, cash, online) - PanelChange(total, cash, online) == total - (cash + online)
    ensures var total := PanelTotal(subtotal, discount);
            PanelCredit(total, cash, online) == 0.0 || PanelChange(total, cash, online) == 0.0
  {
  }

  /** The payment method label: mixed, cash, online or credit, by which of cash and
      online payment is positive. Each label is a value of the bill's enum. */
  function PaymentLabel(cash: real, online: real): (r: string)
    ensures cash > 0.0 && online > 0.0 <==> r == "mixed"
    ensures cash > 0.0 && online <= 0.0 <==> r == "cash"
    ensures cash <= 0.0 && online > 0.0 <==> r == "online"
    ensures cash <= 0.0 && online <= 0.0 <==> r == "credit"
    ensures ParsePosPayment(r).Some?
  {
    if cash > 0.0 && online > 0.0 then "mixed"
    else if cash > 0.0 then "cash"
    else if online > 0.0 then "online"
    else "credit"
  }

  /** A payload cart entry: id, name, price and quantity only. */
  function PayloadLine(it: PosCartItem): CartLine
  {
    CartLine(Some(it.id), Some(it.name), Some(it.price), Some(it.quantity as real))
  }

  function PayloadCart(cart: seq<PosCartItem>): (r: seq<CartLine>)
    ensures |r| == |cart|
    ensures forall i :: 0 <= i < |cart| ==> r[i] == PayloadLine(cart[i])
  {
    seq(|cart|, i requires 0 <= i < |cart| => PayloadLine(cart[i]))
  }

  /** The checkout request: the total after discount, cash and online as entered, credit
      only when some is owed, the panel's payment label, dine-in, the customer name or
      "Guest", and no table number. The discount is also sent, and the server ignores it. */
  function CheckoutRequest(cart: seq<PosCartItem>, subtotal: real, discount: real, cash: real, online: real,
                           customerName: string, customerNumber: string): (req: BillRequest)
    ensures req.cart == Some(PayloadCart(cart))
    ensures req.total == Some(PanelTotal(subtotal, discount))
    ensures req.cash == Some(cash) && req.online == Some(online)
    ensures req.credit.Some? <==> PanelCredit(PanelTotal(subtotal, discount), cash, online) > 0.0
    ensures req.credit.Some? ==> req.credit.value == PanelCredit(PanelTotal(subtotal, discount), cash, online)
    ensures req.paymentMethod == Some(PaymentLabel(cash, online)) && req.orderType == Some("dine-in")
    ensures req.customerName == Some(if customerName != "" then customerName else "Guest")
    ensures req.customerNumber == Some(customerNumber) && req.tableNumber.None?
  {
    var total := PanelTotal(subtotal, discount);
    var credit := PanelCredit(total, cash, online);
    BillRequest(Some(PayloadCart(cart)), Some(total), Some(cash), if credit > 0.0 then Some(credit) else None,
                Some(online), Some(PaymentLabel(cash, online)), Some("dine-in"),
                Some(if customerName != "" then customerName else "Guest"), Some(customerNumber), None)
  }

  /** A bill stored from the panel's request records exactly the panel's figures: the
      credit is what the panel showed as owed (0 when nothing was), so the stored
      cash + credit + online covers the total whenever no change was due. Its customer
      is "Guest" for an empty name. */
  lemma CheckoutBillMatchesPanel(id: Id, cart: seq<PosCartItem>, subtotal: real, discount: real,
                                 cash: real, online: real, customerName: string, customerNumber: string)
    requires RequestBill(id, CheckoutRequest(cart, subtotal, discount, cash, online, customerName, customerNumber)).Some?
    ensures var b := RequestBill(id, CheckoutRequest(cart, subtotal, discount, cash, online, customerName, customerNumber)).value;
            var total := PanelTotal(subtotal, discount);
            && b.totalAmount == total && b.cash == cash && b.online == online
            && b.credit == PanelCredit(total, cash, online)
            && b.credit - PanelChange(total, cash, online) == total - (cash + online)
            && PosPaymentName(b.paymentMethod) == PaymentLabel(cash, online)
            && b.orderType == PosDineIn
            && b.customer == CustomerDetails(if customerName != "" then customerName else "Guest", customerNumber)
            && |b.items| == |cart|
  {
    PanelBalance(subtotal, discount, cash, online);
  }

  /** The panel never sends a table number, so the kitchen order createBill derives from
      its request is always a delivery to "Takeaway". */
  lemma CheckoutKitchenOrderIsTakeaway(cart: seq<PosCartItem>, subtotal: real, discount: real, cash: real,
                                       online: real, customerName: string, customerNumber: string)
    ensures var f := KitchenOrderFields(CheckoutRequest(cart, subtotal, discount, cash, online, customerName, customerNumber));
            f.orderType == Some("delivery") && f.deliveryAddress == Some("Takeaway") && f.tableNumber.None?
  {
  }

  /** The slice update dispatched after a successful checkout: the panel's cart and
      figures, the customer as entered, and discountPercent kept. */
  function CheckoutPatch(cart: seq<PosCartItem>, subtotal: real, discount: real, cash: real, online: real,
                         customerName: string, customerNumber: string): PosPatch
  {
    var total := PanelTotal(subtotal, discount);
    PosPatch(Some(cart), Some(subtotal), Some(discount), None, Some(cash), Some(PanelCredit(total, cash, online)),
             Some(online), Some(total), Some(customerName), Some(customerNumber))
  }

  /** After the dispatch the checkout page sees the panel's figures, including the
      credit, and the old discountPercent. */
  lemma CheckoutPatchEffect(s: PosState, cart: seq<PosCartItem>, subtotal: real, discount: real, cash: real,
                            online: real, customerName: string, customerNumber: string)
    ensures var r := SetPOSData(s, CheckoutPatch(cart, subtotal, discount, cash, online, customerName, customerNumber));
            && r.cart == cart && r.total == subtotal - discount && r.cash == cash && r.online == online
            && r.credit == PanelCredit(subtotal - discount, cash, online)
            && r.discountPercent == s.discountPercent && r.customerName == customerName
  {
  }
}
