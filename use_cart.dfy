/** The customer cart hook: each operation builds a payload from the current cart state
    and dispatches it to the cart slice. Each function here gives the slice state after
    that dispatch. */
module UseCart {
  import opened Common
  import opened CartSlice

  /** `addToCart`'s payload: the item appended without merging, the totals raised by its
      amount and quantity, and the cart opened. */
  function AddToCartPatch(s: CartState, item: CartItem): CartPatch
  {
    CartPatch(Some(s.items + [item]), Some(s.subtotal + item.price * item.quantity),
              Some(s.totalItems + item.quantity), Some(true))
  }

  function AddToCart(s: CartState, item: CartItem): (r: CartState)
    ensures r.items == s.items + [item] && r.isCartOpen
    ensures r.subtotal == s.subtotal + Amount(item) && r.totalItems == s.totalItems + item.quantity
    ensures Consistent(s) ==> Consistent(r)
  {
    SumAppend(s.items, [item], Amount);
    SumAppend(s.items, [item], Quantity);
    SumSingleton(item, Amount);
    SumSingleton(item, Quantity);
    Merged(s, AddToCartPatch(s, item))
  }

  /** `updateQuantity`: a quantity of 0 or less dispatches removeItem, any other sets the
      quantity. */
  function UpdateQuantity(s: CartState, cartItemId: string, quantity: real): (r: CartState)
    ensures quantity > 0.0 ==> |r.items| == |s.items|
    ensures quantity > 0.0 && ItemIndex(s.items, cartItemId).Some? ==>
              r.items[ItemIndex(s.items, cartItemId).value].quantity == quantity
    ensures quantity <= 0.0 ==> forall j :: 0 <= j < |r.items| ==> r.items[j].cartItemId != cartItemId
  {
    if quantity <= 0.0 then ItemRemoved(s, cartItemId) else QuantityUpdated(s, cartItemId, quantity)
  }

  /** With unique ids, updateQuantity keeps the totals in agreement with the items on
      both of its paths. */
  lemma UpdateQuantityConsistent(s: CartState, cartItemId: string, quantity: real)
    requires Consistent(s) && UniqueIds(s.items)
    ensures Consistent(UpdateQuantity(s, cartItemId, quantity))
  {
    if quantity <= 0.0 {
      ItemRemovedConsistent(s, cartItemId);
    } else {
      QuantityUpdatedConsistent(s, cartItemId, quantity);
    }
  }

  /** `removeFromCart`: removeItem with the same id; no item with the id is left and the
      panel flag is kept. */
  function RemoveFromCart(s: CartState, cartItemId: string): (r: CartState)
    ensures forall j :: 0 <= j < |r.items| ==> r.items[j].cartItemId != cartItemId
    ensures r.isCartOpen == s.isCartOpen
  {
    ItemRemoved(s, cartItemId)
  }

  /** With unique ids, removeFromCart drops exactly the item with the id, keeps the
      others in order, and keeps the totals in agreement with the items. */
  lemma RemoveFromCartExact(s: CartState, cartItemId: string)
    requires Consistent(s) && UniqueIds(s.items)
    ensures ItemIndex(s.items, cartItemId).Some? ==>
              RemoveFromCart(s, cartItemId).items == RemoveAt(s.items, ItemIndex(s.items, cartItemId).value)
    ensures ItemIndex(s.items, cartItemId).None? ==> RemoveFromCart(s, cartItemId) == s
    ensures Consistent(RemoveFromCart(s, cartItemId))
  {
    if ItemIndex(s.items, cartItemId).Some? {
      WithoutUnique(s.items, ItemIndex(s.items, cartItemId).value);
    }
    ItemRemovedConsistent(s, cartItemId);
  }

  const ClearCartPatch := CartPatch(Some([]), Some(0.0), Some(0.0), Some(false))

  /** `clearCart`: whatever the state, the result is the initial cart. */
  function ClearCart(s: CartState): (r: CartState)
    ensures r == InitialCart
  {
    Merged(s, ClearCartPatch)
  }

  /** `setIsCartOpen`: the whole state is re-sent with the new flag, so only the flag
      changes. */
  function SetIsCartOpen(s: CartState, value: bool): (r: CartState)
    ensures r.items == s.items && r.subtotal == s.subtotal && r.totalItems == s.totalItems
    ensures r.isCartOpen == value
  {
    Merged(s, CartPatch(Some(s.items), Some(s.subtotal), Some(s.totalItems), Some(value)))
  }
}
