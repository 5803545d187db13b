/** The kitchen order document (`Order`): its line items, the schema's enums,
    defaults and validation rules, and the `total` virtual. */
module OrderModel {
  import opened Common

  datatype OrderType = Delivery | DineIn
  datatype PaymentMethod = Counter | Card
  datatype OrderStatus = Pending | InProgress | Completed | Cancelled | Delivered

  function OrderTypeName(t: OrderType): string
  {
    match t
    case Delivery => "delivery"
    case DineIn => "dine-in"
  }

  /** The schema's `orderType` enum: exactly the two names parse. */
  function ParseOrderType(s: string): (r: Option<OrderType>)
    ensures r.Some? <==> s == "delivery" || s == "dine-in"
    ensures r.Some? ==> OrderTypeName(r.value) == s
  {
    if s == "delivery" then Some(Delivery)
    else if s == "dine-in" then Some(DineIn)
    else None
  }

  function PaymentMethodName(p: PaymentMethod): string
  {
    match p
    case Counter => "counter"
    case Card => "card"
  }

  /** The schema's `paymentMethod` enum: "counter" and "card". */
  function ParsePaymentMethod(s: string): (r: Option<PaymentMethod>)
    ensures r.Some? <==> s == "counter" || s == "card"
    ensures r.Some? ==> PaymentMethodName(r.value) == s
  {
    if s == "counter" then Some(Counter)
    else if s == "card" then Some(Card)
    else None
  }

  function StatusName(s: OrderStatus): string
  {
    match s
    case Pending => "pending"
    case InProgress => "in-progress"
    case Completed => "completed"
    case Cancelled => "cancelled"
    case Delivered => "delivered"
  }

  /** The schema's `status` enum of five names. */
  function ParseStatus(s: string): (r: Option<OrderStatus>)
    ensures r.Some? <==> s in ["pending", "in-progress", "completed", "cancelled", "delivered"]
    ensures r.Some? ==> StatusName(r.value) == s
  {
    if s == "pending" then Some(Pending)
    else if s == "in-progress" then Some(InProgress)
    else if s == "completed" then Some(Completed)
    else if s == "cancelled" then Some(Cancelled)
    else if s == "delivered" then Some(Delivered)
    else None
  }

  /** Every enum value's name parses back to it (the names are distinct). */
  lemma EnumNamesRoundTrip(t: OrderType, p: PaymentMethod, s: OrderStatus)
    ensures ParseOrderType(OrderTypeName(t)) == Some(t)
    ensures ParsePaymentMethod(PaymentMethodName(p)) == Some(p)
    ensures ParseStatus(StatusName(s)) == Some(s)
  {
  }

  /** The statuses the handlers treat as an open order: pending and in-progress. */
  predicate IsActive(s: OrderStatus)
  {
    s == Pending || s == InProgress
  }

  /** A stored line item; `id` is the sub-document `_id`. */
  datatype LineItem = LineItem(id: Id, name: string, quantity: real, price: real,
                               specialInstructions: Option<string>)

  function LineTotal(it: LineItem): real
  {
    it.price * it.quantity
  }

  /** Σ price × quantity over a list of line items. */
  function ItemsTotal(items: seq<LineItem>): real
  {
    Sum(items, LineTotal)
  }

  datatype Order = Order(
    id: Id,
    customerName: string,
    items: seq<LineItem>,
    orderType: OrderType,
    tableNumber: Option<string>,
    phoneNumber: Option<string>,
    deliveryAddress: Option<string>,
    specialInstructions: Option<string>,
    paymentMethod: PaymentMethod,
    subtotal: Option<real>,
    status: OrderStatus,
    sentToKOT: bool)

  /** Item rules: name required, quantity at least 1, price at least 0.01. */
  predicate ItemValid(it: LineItem)
  {
    it.name != "" && it.quantity >= 1.0 && it.price >= 0.01
  }

  /** The schema's validators, which `save()` runs. A required string fails when it is
      missing or "". */
  predicate OrderValid(o: Order)
  {
    && o.customerName != ""
    && (forall i :: 0 <= i < |o.items| ==> ItemValid(o.items[i]))
    && (o.orderType == DineIn ==> Truthy(o.tableNumber))
    && (o.orderType == Delivery ==> Truthy(o.phoneNumber) && Truthy(o.deliveryAddress))
    && o.subtotal.Some? && o.subtotal.value >= 0.0
  }

  /** An item as it arrives in a request body or a cart, before Mongoose casts it:
      a field that is absent (or of the wrong JSON type) is `None`. */
  datatype ItemFields = ItemFields(name: Option<string>, quantity: Option<real>, price: Option<real>,
                                   specialInstructions: Option<string>)

  /** The plain object handed to `new Order(...)`; `None` means the key is absent. */
  datatype OrderFields = OrderFields(
    customerName: Option<string>,
    items: seq<ItemFields>,
    orderType: Option<string>,
    tableNumber: Option<string>,
    phoneNumber: Option<string>,
    deliveryAddress: Option<string>,
    specialInstructions: Option<string>,
    paymentMethod: Option<string>,
    subtotal: Option<real>,
    status: Option<string>,
    sentToKOT: Option<bool>)

  /** Casts request items into line items, giving them consecutive sub-document ids
      from `firstId`; `None` when a required item field is missing. */
  function CastItems(items: seq<ItemFields>, firstId: Id): (r: Option<seq<LineItem>>)
    ensures r.Some? <==> forall i :: 0 <= i < |items| ==>
                           items[i].name.Some? && items[i].quantity.Some? && items[i].price.Some?
    ensures r.Some? ==> |r.value| == |items|
    ensures r.Some? ==> forall i :: 0 <= i < |items| ==>
                          && r.value[i].id == firstId + i
                          && Some(r.value[i].name) == items[i].name
                          && Some(r.value[i].quantity) == items[i].quantity
                          && Some(r.value[i].price) == items[i].price
                          && r.value[i].specialInstructions == items[i].specialInstructions
  {
    if |items| == 0 then Some([])
    else
      var it := items[0];
      if it.name.None? || it.quantity.None? || it.price.None? then None
      else match CastItems(items[1..], firstId + 1)
        case None => None
        case Some(rest) =>
          Some([LineItem(firstId, it.name.value, it.quantity.value, it.price.value,
                         it.specialInstructions)] + rest)
  }

  /** The document `new Order(fields)` builds with id `id`, filling in the schema
      defaults (customerName "Guest", dine-in, counter, pending, not sent to the
      kitchen); `None` when an enum value is unknown or an item misses a required
      field, which `save()` reports as a validation error. */
  function Construct(id: Id, f: OrderFields): (r: Option<Order>)
    ensures r.Some? ==> r.value.id == id
    ensures r.Some? ==> r.value.customerName == f.customerName.GetOr("Guest")
    ensures r.Some? ==> OrderTypeName(r.value.orderType) == f.orderType.GetOr("dine-in")
    ensures r.Some? ==> PaymentMethodName(r.value.paymentMethod) == f.paymentMethod.GetOr("counter")
    ensures r.Some? ==> StatusName(r.value.status) == f.status.GetOr("pending")
    ensures r.Some? ==> r.value.sentToKOT == f.sentToKOT.GetOr(false)
    ensures r.Some? ==> r.value.subtotal == f.subtotal && |r.value.items| == |f.items|
    ensures r.Some? ==> CastItems(f.items, id + 1) == Some(r.value.items)
    ensures r.Some? ==> r.value.tableNumber == f.tableNumber && r.value.phoneNumber == f.phoneNumber
    ensures r.Some? ==> r.value.deliveryAddress == f.deliveryAddress
    ensures r.Some? ==> r.value.specialInstructions == f.specialInstructions
    ensures r.None? <==> || (f.orderType.Some? && ParseOrderType(f.orderType.value).None?)
                         || (f.paymentMethod.Some? && ParsePaymentMethod(f.paymentMethod.value).None?)
                         || (f.status.Some? && ParseStatus(f.status.value).None?)
                         || CastItems(f.items, id + 1).None?
  {
    var orderType := if f.orderType.Some? then ParseOrderType(f.orderType.value) else Some(DineIn);
    var payment := if f.paymentMethod.Some? then ParsePaymentMethod(f.paymentMethod.value) else Some(Counter);
    var status := if f.status.Some? then ParseStatus(f.status.value) else Some(Pending);
    var items := CastItems(f.items, id + 1);
    if orderType.None? || payment.None? || status.None? || items.None? then None
    else Some(Order(id, f.customerName.GetOr("Guest"), items.value, orderType.value,
                    f.tableNumber, f.phoneNumber, f.deliveryAddress, f.specialInstructions,
                    payment.value, f.subtotal, status.value, f.sentToKOT.GetOr(false)))
  }

  /** What `new Order(fields).save()` stores: the constructed document when it passes
      the schema's validators, otherwise `None` (a ValidationError). Line items take the
      ids after `id`. */
  function SaveNew(id: Id, f: OrderFields): (r: Option<Order>)
    ensures r.Some? <==> Construct(id, f).Some? && OrderValid(Construct(id, f).value)
    ensures r.Some? ==> r == Construct(id, f) && OrderValid(r.value)
  {
    var o := Construct(id, f);
    if o.Some? && OrderValid(o.value) then o else None
  }

  /** The delivery charge added by the `total` virtual. */
  const DeliveryFee: real := 2.5

  /** The `total` virtual: the subtotal plus 2.50 on delivery orders. */
  function Total(o: Order): (r: real)
    requires o.subtotal.Some?
    ensures r >= o.subtotal.value
    ensures r == o.subtotal.value <==> o.orderType == DineIn
  {
    match o.orderType
    case Delivery => o.subtotal.value + DeliveryFee
    case DineIn => o.subtotal.value
  }
}
