/** The point-of-sale bill document: a snapshot of the cart, the amount due and how it
    was split between cash, credit and online payment. */
module PosModel {
  import opened Common

  datatype PosPayment = PayCash | PayCard | PayOnline | PayUpi | PayWallet | PayMixed | PayCredit
  datatype PosOrderType = PosDineIn | PosDelivery | PosRoomService

  function PosPaymentName(p: PosPayment): string
  {
    match p
    case PayCash => "cash"
    case PayCard => "card"
    case PayOnline => "online"
    case PayUpi => "upi"
    case PayWallet => "wallet"
    case PayMixed => "mixed"
    case PayCredit => "credit"
  }

  /** The bill's `paymentMethod` enum of seven names. */
  function ParsePosPayment(s: string): (r: Option<PosPayment>)
    ensures r.Some? <==> s in ["cash", "card", "online", "upi", "wallet", "mixed", "credit"]
    ensures r.Some? ==> PosPaymentName(r.value) == s
  {
    if s == "cash" then Some(PayCash)
    else if s == "card" then Some(PayCard)
    else if s == "online" then Some(PayOnline)
    else if s == "upi" then Some(PayUpi)
    else if s == "wallet" then Some(PayWallet)
    else if s == "mixed" then Some(PayMixed)
    else if s == "credit" then Some(PayCredit)
    else None
  }

  function PosOrderTypeName(t: PosOrderType): string
  {
    match t
    case PosDineIn => "dine-in"
    case PosDelivery => "delivery"
    case PosRoomService => "room-service"
  }

  /** The bill's `orderType` enum of three names. */
  function ParsePosOrderType(s: string): (r: Option<PosOrderType>)
    ensures r.Some? <==> s in ["dine-in", "delivery", "room-service"]
    ensures r.Some? ==> PosOrderTypeName(r.value) == s
  {
    if s == "dine-in" then Some(PosDineIn)
    else if s == "delivery" then Some(PosDelivery)
    else if s == "room-service" then Some(PosRoomService)
    else None
  }

  /** A snapshot line; `id` is the menu item's id as a string, and optional. */
  datatype PosItem = PosItem(id: Option<string>, name: string, price: real, quantity: real)

  datatype CustomerDetails = CustomerDetails(name: string, contact: string)

  datatype PosBill = PosBill(
    id: Id,
    items: seq<PosItem>,
    totalAmount: real,
    cash: real,
    credit: real,
    online: real,
    paymentMethod: PosPayment,
    orderType: PosOrderType,
    customer: CustomerDetails)

  /** Line rules: name required, quantity at least 1 (price only has to be present). */
  predicate PosItemValid(it: PosItem)
  {
    it.name != "" && it.quantity >= 1.0
  }

  predicate PosBillValid(b: PosBill)
  {
    forall i :: 0 <= i < |b.items| ==> PosItemValid(b.items[i])
  }

  /** A cart entry as the client sends it; a missing key is `None`. */
  datatype CartLine = CartLine(id: Option<string>, name: Option<string>, price: Option<real>,
                               quantity: Option<real>)

  /** Casts cart entries into bill lines; `None` when a name, price or quantity is missing. */
  function CastPosItems(cart: seq<CartLine>): (r: Option<seq<PosItem>>)
    ensures r.Some? <==> forall i :: 0 <= i < |cart| ==>
                           cart[i].name.Some? && cart[i].price.Some? && cart[i].quantity.Some?
    ensures r.Some? ==> |r.value| == |cart|
    ensures r.Some? ==> forall i :: 0 <= i < |cart| ==>
                          && r.value[i].id == cart[i].id
                          && Some(r.value[i].name) == cart[i].name
                          && Some(r.value[i].price) == cart[i].price
                          && Some(r.value[i].quantity) == cart[i].quantity
  {
    if |cart| == 0 then Some([])
    else
      var c := cart[0];
      if c.name.None? || c.price.None? || c.quantity.None? then None
      else match CastPosItems(cart[1..])
        case None => None
        case Some(rest) => Some([PosItem(c.id, c.name.value, c.price.value, c.quantity.value)] + rest)
  }

  /** What `posModel.create(...)` stores: `None` (a validation error) when a line is
      missing a field or breaks a line rule, totalAmount is missing, or an enum value is
      unknown. cash, credit and online default to 0, paymentMethod to "cash" and
      orderType to "dine-in". */
  function CreatePosBill(id: Id, cart: seq<CartLine>, totalAmount: Option<real>,
                         cash: Option<real>, credit: Option<real>, online: Option<real>,
                         paymentMethod: Option<string>, orderType: Option<string>,
                         customer: CustomerDetails): (r: Option<PosBill>)
    ensures r.Some? ==> PosBillValid(r.value) && r.value.id == id && r.value.customer == customer
    ensures r.Some? ==> CastPosItems(cart) == Some(r.value.items)
    ensures r.Some? ==> Some(r.value.totalAmount) == totalAmount
    ensures r.Some? ==> r.value.cash == cash.GetOr(0.0) && r.value.credit == credit.GetOr(0.0)
                        && r.value.online == online.GetOr(0.0)
    ensures r.Some? ==> PosPaymentName(r.value.paymentMethod) == paymentMethod.GetOr("cash")
    ensures r.Some? ==> PosOrderTypeName(r.value.orderType) == orderType.GetOr("dine-in")
    ensures r.None? <==> || CastPosItems(cart).None?
                         || totalAmount.None?
                         || (paymentMethod.Some? && ParsePosPayment(paymentMethod.value).None?)
                         || (orderType.Some? && ParsePosOrderType(orderType.value).None?)
                         || !(forall i :: 0 <= i < |CastPosItems(cart).value| ==>
                                PosItemValid(CastPosItems(cart).value[i]))
  {
    var items := CastPosItems(cart);
    var pm := if paymentMethod.Some? then ParsePosPayment(paymentMethod.value) else Some(PayCash);
    var ot := if orderType.Some? then ParsePosOrderType(orderType.value) else Some(PosDineIn);
    if items.None? || totalAmount.None? || pm.None? || ot.None? then None
    else
      var b := PosBill(id, items.value, totalAmount.value, cash.GetOr(0.0), credit.GetOr(0.0),
                       online.GetOr(0.0), pm.value, ot.value, customer);
      if PosBillValid(b) then Some(b) else None
  }

  /** Nothing in the schema ties totalAmount to cash + credit + online: a bill whose
      parts do not add up to its total is still valid. */
  lemma AmountsNotReconciled()
    ensures exists b: PosBill :: PosBillValid(b) && b.totalAmount != b.cash + b.credit + b.online
  {
    var b := PosBill(0, [], 10.0, 1.0, 0.0, 0.0, PayCash, PosDineIn, CustomerDetails("Guest", ""));
    assert PosBillValid(b) && b.totalAmount != b.cash + b.credit + b.online;
  }
}
