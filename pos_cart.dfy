/** The point-of-sale cart hook: the cart updaters, the memoised subtotal and change, the
    credit effect, and clearCart. */
module PosCart {
  import opened Common

  /** A cart entry: the menu item's id, name and price, and how many were added (a
      whole number: entries start at 1 and move by 1). */
  datatype PosCartItem = PosCartItem(id: string, name: string, price: real, quantity: int)

  function LineAmount(it: PosCartItem): real
  {
    it.price * it.quantity as real
  }

  /** `cart.reduce((sum, item) => sum + item.price * item.quantity, 0)`. */
  function Subtotal(cart: seq<PosCartItem>): real
  {
    Sum(cart, LineAmount)
  }

  predicate HasId(cart: seq<PosCartItem>, id: string)
  {
    exists j :: 0 <= j < |cart| && cart[j].id == id
  }

  predicate UniqueIds(cart: seq<PosCartItem>)
  {
    forall i, j :: 0 <= i < j < |cart| ==> cart[i].id != cart[j].id
  }

  /** Every entry was added with quantity 1 and only ever raised, or lowered to no less
      than 1. */
  predicate QuantitiesAtLeastOne(cart: seq<PosCartItem>)
  {
    forall i :: 0 <= i < |cart| ==> cart[i].quantity >= 1
  }

  function Bumped(it: PosCartItem, id: string): PosCartItem
  {
    if it.id == id then it.(quantity := it.quantity + 1) else it
  }

  /** `increaseQty`: every entry with the id gains 1, the others are untouched. */
  function IncreaseQty(cart: seq<PosCartItem>, id: string): (r: seq<PosCartItem>)
    ensures |r| == |cart|
    ensures forall i :: 0 <= i < |cart| && cart[i].id == id ==> r[i] == cart[i].(quantity := cart[i].quantity + 1)
    ensures forall i :: 0 <= i < |cart| && cart[i].id != id ==> r[i] == cart[i]
    ensures QuantitiesAtLeastOne(cart) ==> QuantitiesAtLeastOne(r)
  {
    seq(|cart|, i requires 0 <= i < |cart| => Bumped(cart[i], id))
  }

  /** `addToCart`: an id already in the cart gains 1; a new one is appended with
      quantity 1, whatever quantity the item carried. */
  function AddToCart(cart: seq<PosCartItem>, item: PosCartItem): (r: seq<PosCartItem>)
    ensures HasId(cart, item.id) ==> r == IncreaseQty(cart, item.id)
    ensures !HasId(cart, item.id) ==> r == cart + [item.(quantity := 1)]
    ensures HasId(r, item.id)
    ensures QuantitiesAtLeastOne(cart) ==> QuantitiesAtLeastOne(r)
    ensures UniqueIds(cart) ==> UniqueIds(r)
  {
    if HasId(cart, item.id) then
      var r := IncreaseQty(cart, item.id);
      var j :| 0 <= j < |cart| && cart[j].id == item.id;
      assert r[j].id == item.id;
      r
    else
      var r := cart + [item.(quantity := 1)];
      assert r[|cart|].id == item.id;
      r
  }

  function NotId(id: string): PosCartItem -> bool
  {
    (it: PosCartItem) => it.id != id
  }

  /** `removeFromCart`: every entry with the id goes, the others stay in order. */
  function RemoveFromCart(cart: seq<PosCartItem>, id: string): (r: seq<PosCartItem>)
    ensures SelectedAt(r, cart, NotId(id), KeptPositions(cart, NotId(id)))
    ensures !HasId(r, id)
    ensures forall i :: 0 <= i < |cart| && cart[i].id != id ==> cart[i] in r
    ensures forall i :: 0 <= i < |r| ==> r[i] in cart
    ensures QuantitiesAtLeastOne(cart) ==> QuantitiesAtLeastOne(r)
  {
    FilterByIndex(cart, NotId(id));
    FilterSelects(cart, NotId(id));
    Filter(cart, NotId(id))
  }

  function Lowered(it: PosCartItem, id: string): PosCartItem
  {
    if it.id == id then it.(quantity := if it.quantity > 1 then it.quantity - 1 else 1) else it
  }

  function Positive(it: PosCartItem): bool
  {
    it.quantity > 0
  }

  /** `decreaseQty`: entries with the id lose 1 but stop at 1; then entries of quantity 0
      or less are dropped. */
  function DecreaseQty(cart: seq<PosCartItem>, id: string): (r: seq<PosCartItem>)
    ensures |r| <= |cart|
    ensures forall x :: x in r ==> x.quantity > 0
    ensures forall i :: 0 <= i < |cart| && cart[i].id == id ==>
              cart[i].(quantity := if cart[i].quantity > 1 then cart[i].quantity - 1 else 1) in r
    ensures forall i :: 0 <= i < |cart| && cart[i].id != id && cart[i].quantity > 0 ==> cart[i] in r
    ensures forall x :: x in r && x.id != id ==> x in cart
  {
    var lowered := seq(|cart|, i requires 0 <= i < |cart| => Lowered(cart[i], id));
    FilterMembership(lowered, Positive);
    assert forall i :: 0 <= i < |cart| ==> lowered[i] == Lowered(cart[i], id);
    Filter(lowered, Positive)
  }

  /** In a cart whose quantities are all at least 1, decreaseQty never removes an entry
      and never takes a quantity below 1. */
  lemma DecreaseQtyKeepsEntries(cart: seq<PosCartItem>, id: string)
    requires QuantitiesAtLeastOne(cart)
    ensures |DecreaseQty(cart, id)| == |cart|
    ensures forall i :: 0 <= i < |cart| ==> DecreaseQty(cart, id)[i] == Lowered(cart[i], id)
    ensures QuantitiesAtLeastOne(DecreaseQty(cart, id))
  {
    var lowered := seq(|cart|, i requires 0 <= i < |cart| => Lowered(cart[i], id));
    assert forall i :: 0 <= i < |lowered| ==> Positive(lowered[i]);
    FilterAll(lowered, Positive);
  }

  /** With unique ids, raising one entry by 1 raises the subtotal by that entry's price. */
  lemma IncreaseQtySubtotal(cart: seq<PosCartItem>, k: nat)
    requires UniqueIds(cart) && k < |cart|
    ensures Subtotal(IncreaseQty(cart, cart[k].id)) == Subtotal(cart) + cart[k].price
  {
    var id := cart[k].id;
    var bumped := cart[k].(quantity := cart[k].quantity + 1);
    assert IncreaseQty(cart, id) == cart[k := bumped];
    SumUpdate(cart, k, bumped, LineAmount);
    assert LineAmount(bumped) == LineAmount(cart[k]) + cart[k].price;
  }

  /** With unique ids, addToCart raises the subtotal by one unit's price: the price
      already in the cart for a known id, the item's own price for a new one. */
  lemma AddToCartSubtotal(cart: seq<PosCartItem>, item: PosCartItem)
    requires UniqueIds(cart)
    ensures HasId(cart, item.id) ==>
              exists k :: 0 <= k < |cart| && cart[k].id == item.id &&
                          Subtotal(AddToCart(cart, item)) == Subtotal(cart) + cart[k].price
    ensures !HasId(cart, item.id) ==> Subtotal(AddToCart(cart, item)) == Subtotal(cart) + item.price
  {
    if HasId(cart, item.id) {
      var k :| 0 <= k < |cart| && cart[k].id == item.id;
      IncreaseQtySubtotal(cart, k);
    } else {
      var added := item.(quantity := 1);
      SumAppend(cart, [added], LineAmount);
      SumSingleton(added, LineAmount);
    }
  }

  /** The credit effect: what is still owed after cash, discount and online payment,
      or 0. */
  function CreditAmount(total: real, cashPaid: real, discount: real, onlineAmount: real): (r: real)
    ensures r >= 0.0
    ensures r >= total - (cashPaid + discount + onlineAmount)
    ensures r == 0.0 || r == total - (cashPaid + discount + onlineAmount)
  {
    var owed := total - (cashPaid + discount + onlineAmount);
    if owed > 0.0 then owed else 0.0
  }

  /** The memoised change: what was paid beyond the total, or 0 (shown to two decimals,
      which is not modelled). */
  function Change(total: real, cashPaid: real, discount: real, onlineAmount: real): (r: real)
    ensures r >= 0.0
    ensures r >= cashPaid + discount + onlineAmount - total
    ensures r == 0.0 || r == cashPaid + discount + onlineAmount - total
  {
    if cashPaid + discount + onlineAmount > total then cashPaid + discount + onlineAmount - total else 0.0
  }

  /** Credit minus change is what is owed, so at most one of them is positive. */
  lemma CreditChangeBalance(total: real, cashPaid: real, discount: real, onlineAmount: real)
    ensures CreditAmount(total, cashPaid, discount, onlineAmount) - Change(total, cashPaid, discount, onlineAmount)
            == total - (cashPaid + discount + onlineAmount)
    ensures CreditAmount(total, cashPaid, discount, onlineAmount) == 0.0 || Change(total, cashPaid, discount, onlineAmount) == 0.0
  {
  }

  /** The hook's state. `creditAmount` is the value the credit effect last wrote. */
  datatype PosCartHook = PosCartHook(
    cart: seq<PosCartItem>,
    discount: real,
    onlineAmount: real,
    cashPaid: real,
    creditAmount: real,
    customerName: string,
    customerNumber: string,
    total: real)

  const InitialHook := PosCartHook([], 0.0, 0.0, 0.0, 0.0, "Guest", "", 0.0)

  /** `clearCart`: the cart, discount and every amount reset; the customer is kept. */
  function ClearCart(h: PosCartHook): (r: PosCartHook)
    ensures r.cart == [] && r.discount == 0.0 && r.cashPaid == 0.0 && r.creditAmount == 0.0
    ensures r.onlineAmount == 0.0 && r.total == 0.0
    ensures r.customerName == h.customerName && r.customerNumber == h.customerNumber
    ensures r == InitialHook.(customerName := h.customerName, customerNumber := h.customerNumber)
  {
    h.(cart := [], discount := 0.0, cashPaid := 0.0, creditAmount := 0.0, onlineAmount := 0.0, total := 0.0)
  }
}
