/** The customer order submission hook: checking the order form, building the request,
    choosing between creating an order and adding to the active one, and what the hook's
    state and the two slices hold afterwards. */
module SubmitOrder {
  import opened Common
  import opened OrderModel
  import opened CartSlice
  import opened OrderSlice
  import opened OrderController
  import UseCart

  const EmptyCartMessage := "Your cart is empty. Please add items before ordering."
  const NoTableMessage := "Table number is required for dine-in orders"
  const NoAddressMessage := "Delivery address is required"
  const NoPaymentMessage := "Please select a payment method"

  /** `validateOrder`: the first failing check's message, in source order, or `None`. */
  function ValidateOrder(s: OrderState): (r: Option<string>)
    ensures s.items.None? || |s.items.value| == 0 ==> r == Some(EmptyCartMessage)
    ensures s.items.Some? && |s.items.value| > 0 && s.orderType == "dine-in" && s.tableNumber == "" ==>
              r == Some(NoTableMessage)
    ensures s.items.Some? && |s.items.value| > 0 && s.orderType == "delivery" && s.deliveryAddress == "" ==>
              r == Some(NoAddressMessage)
    ensures s.items.Some? && |s.items.value| > 0 && !(s.orderType == "dine-in" && s.tableNumber == "")
            && !(s.orderType == "delivery" && s.deliveryAddress == "") && s.paymentMethod == "" ==>
              r == Some(NoPaymentMessage)
    ensures r.None? <==> && s.items.Some? && |s.items.value| > 0
                         && (s.orderType == "dine-in" ==> s.tableNumber != "")
                         && (s.orderType == "delivery" ==> s.deliveryAddress != "")
                         && s.paymentMethod != ""
  {
    if s.items.None? || |s.items.value| == 0 then Some(EmptyCartMessage)
    else if s.orderType == "dine-in" && s.tableNumber == "" then Some(NoTableMessage)
    else if s.orderType == "delivery" && s.deliveryAddress == "" then Some(NoAddressMessage)
    else if s.paymentMethod == "" then Some(NoPaymentMessage)
    else None
  }

  /** A create-order request item: name, quantity and price, with empty instructions sent
      as null. */
  function PayloadItem(it: CartItem): (r: ItemFields)
    ensures r.name == Some(it.name) && r.quantity == Some(it.quantity) && r.price == Some(it.price)
    ensures r.specialInstructions.Some? <==> Truthy(it.specialInstructions)
    ensures r.specialInstructions.Some? ==> r.specialInstructions == it.specialInstructions
  {
    ItemFields(Some(it.name), Some(it.quantity), Some(it.price),
               if Truthy(it.specialInstructions) then it.specialInstructions else None)
  }

  function PayloadItems(items: seq<CartItem>): (r: seq<ItemFields>)
    ensures |r| == |items|
    ensures forall i :: 0 <= i < |items| ==> r[i] == PayloadItem(items[i])
  {
    seq(|items|, i requires 0 <= i < |items| => PayloadItem(items[i]))
  }

  /** The create-order request: customer "Guest", the table only for dine-in, the
      address only for delivery, the order's instructions only when non-empty. */
  function OrderRequest(s: OrderState): (req: CreateOrderRequest)
    ensures req.customerName == Some("Guest")
    ensures req.items == Some(PayloadItems(s.items.GetOr([])))
    ensures req.orderType == Some(s.orderType) && req.paymentMethod == Some(s.paymentMethod)
    ensures req.tableNumber == (if s.orderType == "dine-in" then Some(s.tableNumber) else None)
    ensures req.deliveryAddress == (if s.orderType == "delivery" then Some(s.deliveryAddress) else None)
    ensures req.specialInstructions == (if s.specialInstructions != "" then Some(s.specialInstructions) else None)
    ensures req.subtotal == s.subtotal
  {
    CreateOrderRequest(Some("Guest"), Some(PayloadItems(s.items.GetOr([]))), Some(s.orderType),
                       if s.orderType == "dine-in" then Some(s.tableNumber) else None,
                       if s.orderType == "delivery" then Some(s.deliveryAddress) else None,
                       if s.specialInstructions != "" then Some(s.specialInstructions) else None,
                       Some(s.paymentMethod), s.subtotal)
  }

  /** The `total` the request also carries, which the server ignores: the subtotal plus
      the 2.50 delivery fee for delivery. */
  function PayloadTotal(s: OrderState): (r: Option<real>)
    ensures s.subtotal.None? <==> r.None?
    ensures s.subtotal.Some? && s.orderType == "delivery" ==> r == Some(s.subtotal.value + DeliveryFee)
    ensures s.subtotal.Some? && s.orderType != "delivery" ==> r == s.subtotal
  {
    if s.subtotal.None? then None
    else if s.orderType == "delivery" then Some(s.subtotal.value + 2.5)
    else s.subtotal
  }

  /** If the server stores the order built from the request, the order's `total` virtual
      equals the total the client sent, provided the client's subtotal was non-zero (the
      server trusts it). */
  lemma StoredTotalMatchesClient(s: OrderState, id: Id, o: Order)
    requires SaveNew(id, CreateOrderFields(OrderRequest(s))) == Some(o)
    requires TruthyNum(s.subtotal)
    ensures PayloadTotal(s) == Some(Total(o))
  {
    CreatedOrderShape(id, OrderRequest(s), o);
  }

  /** The server copies no phone number, so a delivery order submitted from the client is
      never stored. */
  lemma ClientDeliveryNeverStored(s: OrderState, id: Id)
    requires s.orderType == "delivery"
    ensures SaveNew(id, CreateOrderFields(OrderRequest(s))).None?
  {
    var c := Construct(id, CreateOrderFields(OrderRequest(s)));
    assert c.Some? ==> c.value.phoneNumber.None?;
  }

  /** The request the hook sends: add-item with the raw items and the table number when
      there is an active order, otherwise create-order. */
  datatype Submission = CreateSubmission(create: CreateOrderRequest) | AddSubmission(add: AddItemRequest)

  /** An add-item request item: the cart line as it is, so empty instructions are sent
      as they are rather than as null. */
  function RawItem(it: CartItem): (r: ItemFields)
    ensures r.name == Some(it.name) && r.quantity == Some(it.quantity) && r.price == Some(it.price)
    ensures r.specialInstructions == it.specialInstructions
  {
    ItemFields(Some(it.name), Some(it.quantity), Some(it.price), it.specialInstructions)
  }

  function RequestFor(s: OrderState, activeOrderId: Option<Id>): (r: Submission)
    ensures activeOrderId.Some? <==> r.AddSubmission?
    ensures activeOrderId.Some? ==> r.add.orderId == activeOrderId.value && r.add.tableNumber == Some(s.tableNumber)
    ensures activeOrderId.Some? ==>
              && r.add.newItems.Some? && |r.add.newItems.value| == |s.items.GetOr([])|
              && forall i :: 0 <= i < |s.items.GetOr([])| ==> r.add.newItems.value[i] == RawItem(s.items.GetOr([])[i])
    ensures activeOrderId.None? ==> r == CreateSubmission(OrderRequest(s))
  {
    match activeOrderId
    case Some(id) =>
      var items := s.items.GetOr([]);
      AddSubmission(AddItemRequest(id, Some(seq(|items|, i requires 0 <= i < |items| => RawItem(items[i]))),
                                   Some(s.tableNumber)))
    case None => CreateSubmission(OrderRequest(s))
  }

  /** What came back: a status and the body's message ("" when it has none), or nothing
      at all. */
  datatype ServerReply = Replied(status: nat, message: string) | NoReply

  /** Only 200 and 201 count as success. */
  predicate Accepted(reply: ServerReply)
  {
    reply.Replied? && (reply.status == 200 || reply.status == 201)
  }

  const GenericFailure := "Failed to submit order. Please try again."

  /** The error shown for a reply that does not count: axios rejects a status outside
      200-299 with the response attached (its message, or "Server error: <status>"); a
      2xx other than 200 and 201 is rejected by the hook itself, with no response
      attached; no reply at all is a connection error. */
  function FailureMessage(reply: ServerReply): (m: string)
    requires !Accepted(reply)
    ensures reply.NoReply? ==> m == "No response from server. Please check your connection."
    ensures reply.Replied? && 200 <= reply.status < 300 ==> m == GenericFailure
    ensures reply.Replied? && !(200 <= reply.status < 300) && reply.message != "" ==> m == reply.message
    ensures reply.Replied? && !(200 <= reply.status < 300) && reply.message == "" ==>
              m == "Server error: " + NatToString(reply.status)
  {
    match reply
    case NoReply => "No response from server. Please check your connection."
    case Replied(status, message) =>
      if 200 <= status < 300 then GenericFailure
      else if message != "" then message
      else "Server error: " + NatToString(status)
  }

  /** The cart slice's `removeItem` on a dispatched payload: `None` stands for the
      TypeError thrown when the action carries no payload, since the reducer
      destructures it. */
  function DispatchRemoveItem(cart: CartState, payload: Option<string>): (r: Option<CartState>)
    ensures payload.None? <==> r.None?
    ensures payload.Some? ==> r == Some(ItemRemoved(cart, payload.value))
  {
    match payload
    case None => None
    case Some(id) => Some(ItemRemoved(cart, id))
  }

  /** The hook's state and both slices after `handleSubmitOrder`. */
  datatype SubmitResult = SubmitResult(sent: Option<Submission>, orderSuccess: bool, error: Option<string>,
                                       order: OrderState, cart: CartState, submitting: bool)

  /** Where `handleSubmitOrder` stops when the order slice holds no items array: the
      start-of-submission log reads `items.length` and throws before any check, outside
      the try block, so the flags keep the values just set (submitting, no success, no
      error) and nothing is sent. */
  function StuckSubmitting(s: OrderState, cart: CartState): (r: SubmitResult)
    ensures r.submitting && !r.orderSuccess && r.error.None? && r.sent.None?
    ensures r.order == s && r.cart == cart
  {
    SubmitResult(None, false, None, s, cart, true)
  }

  /** The order slice after an accepted submission: empty items and zero subtotal, and
      totalItems left undefined because the payload omits it. */
  function ClearedOrder(s: OrderState): OrderState
  {
    s.(items := Some([]), subtotal := Some(0.0), totalItems := None)
  }

  /** `handleSubmitOrder` as written. After an accepted reply it dispatches `removeItem()`
      with no payload, whose TypeError lands in the catch block. */
  function SubmitAsWritten(s: OrderState, cart: CartState, activeOrderId: Option<Id>, reply: ServerReply): (r: SubmitResult)
    ensures r.orderSuccess <==> ValidateOrder(s).None? && Accepted(reply)
    ensures r.orderSuccess ==> r.error == Some(GenericFailure) && r.cart == cart && r.order == ClearedOrder(s)
  {
    if s.items.None? then StuckSubmitting(s, cart)
    else if ValidateOrder(s).Some? then SubmitResult(None, false, ValidateOrder(s), s, cart, false)
    else
      var sent := Some(RequestFor(s, activeOrderId));
      if !Accepted(reply) then SubmitResult(sent, false, Some(FailureMessage(reply)), s, cart, false)
      else match DispatchRemoveItem(cart, None)
        case None => SubmitResult(sent, true, Some(GenericFailure), ClearedOrder(s), cart, false)
        case Some(c) => SubmitResult(sent, true, None, ClearedOrder(s), c, false)
  }

  /** Every accepted submission ends with the success flag and the generic failure
      message both set, and the customer cart untouched. */
  lemma AcceptedSubmissionReportsFailure(s: OrderState, cart: CartState, activeOrderId: Option<Id>, reply: ServerReply)
    requires ValidateOrder(s).None? && Accepted(reply)
    ensures var r := SubmitAsWritten(s, cart, activeOrderId, reply);
            r.orderSuccess && r.error == Some(GenericFailure) && r.cart == cart
  {
  }

  /** `handleSubmitOrder` with the cart cleared after an accepted reply, as the log line
      following the dispatch states. */
  function Submit(s: OrderState, cart: CartState, activeOrderId: Option<Id>, reply: ServerReply): (r: SubmitResult)
    ensures r.orderSuccess <==> ValidateOrder(s).None? && Accepted(reply)
    ensures r.orderSuccess ==> r.error.None? && r.cart == InitialCart && r.order == ClearedOrder(s)
    ensures !r.orderSuccess ==> r.order == s && r.cart == cart
  {
    if s.items.None? then StuckSubmitting(s, cart)
    else if ValidateOrder(s).Some? then SubmitResult(None, false, ValidateOrder(s), s, cart, false)
    else
      var sent := Some(RequestFor(s, activeOrderId));
      if !Accepted(reply) then SubmitResult(sent, false, Some(FailureMessage(reply)), s, cart, false)
      else SubmitResult(sent, true, None, ClearedOrder(s), UseCart.ClearCart(cart), false)
  }

  /** With no items array the hook throws and stays submitting with no message. Otherwise
      a failed check sends nothing and reports the check's message; a passing one sends
      the request, success is exactly an accepted reply, success carries no error and
      leaves an empty cart and order, a failure carries an error and changes neither
      slice, and the hook is no longer submitting. */
  lemma SubmitOutcome(s: OrderState, cart: CartState, activeOrderId: Option<Id>, reply: ServerReply)
    ensures var r := Submit(s, cart, activeOrderId, reply);
            && (s.items.None? ==> r.submitting && r.error.None? && !r.orderSuccess && r.sent.None?
                                  && r.order == s && r.cart == cart)
            && (s.items.Some? ==> !r.submitting)
            && (r.sent.None? <==> ValidateOrder(s).Some?)
            && (s.items.Some? && ValidateOrder(s).Some? ==>
                  r.error == ValidateOrder(s) && !r.orderSuccess && r.order == s && r.cart == cart)
            && (r.sent.Some? ==> r.sent.value == RequestFor(s, activeOrderId))
            && (r.orderSuccess <==> ValidateOrder(s).None? && Accepted(reply))
            && (r.orderSuccess ==> r.error.None? && r.cart == InitialCart && r.order.items == Some([])
                                   && r.order.subtotal == Some(0.0) && r.order.totalItems.None?)
            && (s.items.Some? && !r.orderSuccess ==> r.error.Some? && r.order == s && r.cart == cart)
  {
  }
}
