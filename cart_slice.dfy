/** The customer cart slice: the items in the cart, their running subtotal and item
    count, and whether the cart panel is open. The reducers update the state in place. */
module CartSlice {
  import opened Common

  datatype CartItem = CartItem(cartItemId: string, name: string, price: real, quantity: real,
                               specialInstructions: Option<string>)

  function Amount(it: CartItem): real
  {
    it.price * it.quantity
  }

  function Quantity(it: CartItem): real
  {
    it.quantity
  }

  /** Σ price × quantity over the items. */
  function ItemsSubtotal(items: seq<CartItem>): real
  {
    Sum(items, Amount)
  }

  /** Σ quantity over the items. */
  function ItemsCount(items: seq<CartItem>): real
  {
    Sum(items, Quantity)
  }

  datatype CartState = CartState(items: seq<CartItem>, subtotal: real, totalItems: real, isCartOpen: bool)

  /** The slice's initial state. */
  const InitialCart := CartState([], 0.0, 0.0, false)

  /** The running totals agree with the items. */
  predicate Consistent(s: CartState)
  {
    s.subtotal == ItemsSubtotal(s.items) && s.totalItems == ItemsCount(s.items)
  }

  lemma InitialConsistent()
    ensures Consistent(InitialCart)
  {
  }

  /** A `setOrderItems` payload: an absent key is `None`. */
  datatype CartPatch = CartPatch(items: Option<seq<CartItem>>, subtotal: Option<real>,
                                 totalItems: Option<real>, isCartOpen: Option<bool>)

  /** `{ ...state, ...payload }`: the payload's keys win, every other field is kept. */
  function Merged(s: CartState, p: CartPatch): (r: CartState)
    ensures r.items == p.items.GetOr(s.items) && r.subtotal == p.subtotal.GetOr(s.subtotal)
    ensures r.totalItems == p.totalItems.GetOr(s.totalItems) && r.isCartOpen == p.isCartOpen.GetOr(s.isCartOpen)
    ensures p == CartPatch(None, None, None, None) ==> r == s
  {
    CartState(p.items.GetOr(s.items), p.subtotal.GetOr(s.subtotal), p.totalItems.GetOr(s.totalItems),
              p.isCartOpen.GetOr(s.isCartOpen))
  }

  /** `items.find(item => item.cartItemId === id)`. */
  function ItemIndex(items: seq<CartItem>, id: string): (r: Option<nat>)
    ensures r.Some? ==> r.value < |items| && items[r.value].cartItemId == id
    ensures r.None? <==> forall j :: 0 <= j < |items| ==> items[j].cartItemId != id
  {
    FindFirst(items, (it: CartItem) => it.cartItemId == id)
  }

  predicate UniqueIds(items: seq<CartItem>)
  {
    forall i, j :: 0 <= i < j < |items| ==> items[i].cartItemId != items[j].cartItemId
  }

  function NotId(id: string): CartItem -> bool
  {
    (it: CartItem) => it.cartItemId != id
  }

  /** `items.filter(item => item.cartItemId !== id)`. */
  function Without(items: seq<CartItem>, id: string): (r: seq<CartItem>)
    ensures forall x :: x in r <==> x in items && x.cartItemId != id
  {
    FilterMembership(items, NotId(id));
    Filter(items, NotId(id))
  }

  /** With unique ids, filtering out one item's id removes exactly that item. */
  lemma {:induction false} WithoutUnique(items: seq<CartItem>, k: nat)
    requires UniqueIds(items) && k < |items|
    ensures Without(items, items[k].cartItemId) == RemoveAt(items, k)
  {
    var p := NotId(items[k].cartItemId);
    forall i | 0 <= i < |items| && i != k
      ensures p(items[i])
    {
      if i < k {
        assert items[i].cartItemId != items[k].cartItemId;
      } else {
        assert items[k].cartItemId != items[i].cartItemId;
      }
    }
    FilterDropsOne(items, k, p);
  }

  /** The state `updateItemQuantity` leaves: the first item with the id takes the new
      quantity and the totals move by its change. */
  function QuantityUpdated(s: CartState, id: string, quantity: real): (r: CartState)
    ensures ItemIndex(s.items, id).None? ==> r == s
    ensures ItemIndex(s.items, id).Some? ==>
              var k := ItemIndex(s.items, id).value;
              && r.items == s.items[k := s.items[k].(quantity := quantity)]
              && r.isCartOpen == s.isCartOpen
  {
    match ItemIndex(s.items, id)
    case None => s
    case Some(k) =>
      var it := s.items[k];
      s.(items := s.items[k := it.(quantity := quantity)],
         subtotal := s.subtotal - Amount(it) + Amount(it.(quantity := quantity)),
         totalItems := s.totalItems - it.quantity + quantity)
  }

  /** updateItemQuantity keeps the totals in agreement with the items. */
  lemma QuantityUpdatedConsistent(s: CartState, id: string, quantity: real)
    requires Consistent(s)
    ensures Consistent(QuantityUpdated(s, id, quantity))
  {
    match ItemIndex(s.items, id)
    case None =>
    case Some(k) =>
      var it := s.items[k];
      SumUpdate(s.items, k, it.(quantity := quantity), Amount);
      SumUpdate(s.items, k, it.(quantity := quantity), Quantity);
  }

  /** The state `removeItem` leaves: the first match's contribution is subtracted and
      every item with the id is filtered out. */
  function ItemRemoved(s: CartState, id: string): (r: CartState)
    ensures ItemIndex(s.items, id).None? ==> r == s
    ensures ItemIndex(s.items, id).Some? ==>
              && r.items == Without(s.items, id)
              && r.subtotal == s.subtotal - Amount(s.items[ItemIndex(s.items, id).value])
              && r.totalItems == s.totalItems - s.items[ItemIndex(s.items, id).value].quantity
              && r.isCartOpen == s.isCartOpen
  {
    match ItemIndex(s.items, id)
    case None => s
    case Some(k) =>
      s.(items := Without(s.items, id), subtotal := s.subtotal - Amount(s.items[k]),
         totalItems := s.totalItems - s.items[k].quantity)
  }

  /** removeItem keeps the totals in agreement with the items when ids are unique. */
  lemma ItemRemovedConsistent(s: CartState, id: string)
    requires Consistent(s) && UniqueIds(s.items)
    ensures Consistent(ItemRemoved(s, id))
    ensures UniqueIds(ItemRemoved(s, id).items)
  {
    match ItemIndex(s.items, id)
    case None =>
    case Some(k) =>
      WithoutUnique(s.items, k);
      SumRemoveAt(s.items, k, Amount);
      SumRemoveAt(s.items, k, Quantity);
  }

  /** With a repeated id the totals drift: both copies leave the items but only the first
      is subtracted. */
  lemma RepeatedIdBreaksTotals()
    ensures var x := CartItem("a", "Tea", 1.0, 1.0, None);
            var s := CartState([x, x], 2.0, 2.0, true);
            Consistent(s) && !Consistent(ItemRemoved(s, "a"))
  {
    var x := CartItem("a", "Tea", 1.0, 1.0, None);
    var s := CartState([x, x], 2.0, 2.0, true);
    SumSingleton(x, Amount);
    SumSingleton(x, Quantity);
    assert [x, x] == [x] + [x];
    SumAppend([x], [x], Amount);
    SumAppend([x], [x], Quantity);
    assert ItemIndex(s.items, "a") == Some(0);
    assert !NotId("a")(x);
    assert [x, x][1..] == [x] && [x][1..] == [];
    assert Filter([x], NotId("a")) == [];
    assert Without(s.items, "a") == [];
  }

  /** The store's cart slice. */
  class CartStore {
    var items: seq<CartItem>
    var subtotal: real
    var totalItems: real
    var isCartOpen: bool

    function State(): CartState
      reads this
    {
      CartState(items, subtotal, totalItems, isCartOpen)
    }

    constructor ()
      ensures State() == InitialCart
    {
      items, subtotal, totalItems, isCartOpen := [], 0.0, 0.0, false;
    }

    /** `setOrderItems`. */
    method SetOrderItems(p: CartPatch)
      modifies this
      ensures State() == Merged(old(State()), p)
    {
      if p.items.Some? { items := p.items.value; }
      if p.subtotal.Some? { subtotal := p.subtotal.value; }
      if p.totalItems.Some? { totalItems := p.totalItems.value; }
      if p.isCartOpen.Some? { isCartOpen := p.isCartOpen.value; }
    }

    /** `updateItemQuantity`. */
    method UpdateItemQuantity(cartItemId: string, quantity: real)
      modifies this
      ensures State() == QuantityUpdated(old(State()), cartItemId, quantity)
    {
      var found := ItemIndex(items, cartItemId);
      if found.Some? {
        var k := found.value;
        var it := items[k];
        subtotal := subtotal - Amount(it);
        totalItems := totalItems - it.quantity;
        items := items[k := it.(quantity := quantity)];
        subtotal := subtotal + Amount(it.(quantity := quantity));
        totalItems := totalItems + quantity;
      }
    }

    /** `removeItem`. */
    method RemoveItem(cartItemId: string)
      modifies this
      ensures State() == ItemRemoved(old(State()), cartItemId)
    {
      var found := ItemIndex(items, cartItemId);
      if found.Some? {
        var it := items[found.value];
        subtotal := subtotal - Amount(it);
        totalItems := totalItems - it.quantity;
        items := Without(items, cartItemId);
      }
    }
  }
}
