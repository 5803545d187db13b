/** The customer order slice: the items and totals handed over from the cart, and the
    order form's fields. Every reducer assigns fields of the state in place. */
module OrderSlice {
  import opened Common
  import opened CartSlice

  /** `items`, `subtotal` and `totalItems` are `None` after a setOrderItems payload that
      omits them (they become `undefined`). */
  datatype OrderState = OrderState(
    items: Option<seq<CartItem>>,
    subtotal: Option<real>,
    totalItems: Option<real>,
    orderType: string,
    tableNumber: string,
    deliveryAddress: string,
    phoneNumber: string,
    specialInstructions: string,
    paymentMethod: string)

  /** Dine-in, counter payment, no items, zero totals and empty form fields. */
  const InitialOrder := OrderState(Some([]), Some(0.0), Some(0.0), "dine-in", "", "", "", "", "counter")

  class OrderStore {
    var items: Option<seq<CartItem>>
    var subtotal: Option<real>
    var totalItems: Option<real>
    var orderType: string
    var tableNumber: string
    var deliveryAddress: string
    var phoneNumber: string
    var specialInstructions: string
    var paymentMethod: string

    function State(): OrderState
      reads this
    {
      OrderState(items, subtotal, totalItems, orderType, tableNumber, deliveryAddress, phoneNumber,
                 specialInstructions, paymentMethod)
    }

    constructor ()
      ensures State() == InitialOrder
    {
      items, subtotal, totalItems := Some([]), Some(0.0), Some(0.0);
      orderType, tableNumber, deliveryAddress := "dine-in", "", "";
      phoneNumber, specialInstructions, paymentMethod := "", "", "counter";
    }

    /** `setOrderItems`: all three of items, subtotal and totalItems are overwritten, with
        whatever the payload holds for each, absent ones included. */
    method SetOrderItems(newItems: Option<seq<CartItem>>, newSubtotal: Option<real>, newTotalItems: Option<real>)
      modifies this
      ensures State() == old(State()).(items := newItems, subtotal := newSubtotal, totalItems := newTotalItems)
    {
      items := newItems;
      subtotal := newSubtotal;
      totalItems := newTotalItems;
    }

    method UpdateOrderType(value: string)
      modifies this
      ensures State() == old(State()).(orderType := value)
    {
      orderType := value;
    }

    method UpdateTableNumber(value: string)
      modifies this
      ensures State() == old(State()).(tableNumber := value)
    {
      tableNumber := value;
    }

    method UpdateDeliveryAddress(value: string)
      modifies this
      ensures State() == old(State()).(deliveryAddress := value)
    {
      deliveryAddress := value;
    }

    method UpdatePhoneNumber(value: string)
      modifies this
      ensures State() == old(State()).(phoneNumber := value)
    {
      phoneNumber := value;
    }

    method UpdateSpecialInstructions(value: string)
      modifies this
      ensures State() == old(State()).(specialInstructions := value)
    {
      specialInstructions := value;
    }

    method UpdatePaymentMethod(value: string)
      modifies this
      ensures State() == old(State()).(paymentMethod := value)
    {
      paymentMethod := value;
    }

    /** `clearOrder`: every field back to its initial value, whatever the state was. */
    method ClearOrder()
      modifies this
      ensures State() == InitialOrder
    {
      items := Some([]);
      subtotal := Some(0.0);
      totalItems := Some(0.0);
      orderType := "dine-in";
      tableNumber := "";
      deliveryAddress := "";
      phoneNumber := "";
      specialInstructions := "";
      paymentMethod := "counter";
    }
  }
}
