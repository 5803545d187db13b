/** The point-of-sale slice that carries a finished sale to the checkout page. Its two
    reducers return a new state: a merge of the payload, or the initial state. */
module PosSlice {
  import opened Common
  import opened PosCart

  datatype PosState = PosState(
    cart: seq<PosCartItem>,
    subtotal: real,
    discount: real,
    discountPercent: real,
    cash: real,
    credit: real,
    online: real,
    total: real,
    customerName: string,
    customerNumber: string)

  /** An empty cart, every amount 0 and the customer "Guest". */
  const InitialPos := PosState([], 0.0, 0.0, 0.0, 0.0, 0.0, 0.0, 0.0, "Guest", "")

  /** A setPOSData payload; an absent key is `None`. */
  datatype PosPatch = PosPatch(
    cart: Option<seq<PosCartItem>>,
    subtotal: Option<real>,
    discount: Option<real>,
    discountPercent: Option<real>,
    cash: Option<real>,
    credit: Option<real>,
    online: Option<real>,
    total: Option<real>,
    customerName: Option<string>,
    customerNumber: Option<string>)

  const EmptyPatch := PosPatch(None, None, None, None, None, None, None, None, None, None)

  /** `setPOSData`: the payload's keys overwrite, every other field is kept. */
  function SetPOSData(s: PosState, p: PosPatch): (r: PosState)
    ensures r.cart == p.cart.GetOr(s.cart) && r.subtotal == p.subtotal.GetOr(s.subtotal)
    ensures r.discount == p.discount.GetOr(s.discount)
    ensures r.discountPercent == p.discountPercent.GetOr(s.discountPercent)
    ensures r.cash == p.cash.GetOr(s.cash) && r.credit == p.credit.GetOr(s.credit)
    ensures r.online == p.online.GetOr(s.online) && r.total == p.total.GetOr(s.total)
    ensures r.customerName == p.customerName.GetOr(s.customerName)
    ensures r.customerNumber == p.customerNumber.GetOr(s.customerNumber)
    ensures p == EmptyPatch ==> r == s
  {
    PosState(p.cart.GetOr(s.cart), p.subtotal.GetOr(s.subtotal), p.discount.GetOr(s.discount),
             p.discountPercent.GetOr(s.discountPercent), p.cash.GetOr(s.cash), p.credit.GetOr(s.credit),
             p.online.GetOr(s.online), p.total.GetOr(s.total), p.customerName.GetOr(s.customerName),
             p.customerNumber.GetOr(s.customerNumber))
  }

  /** Merging the same payload twice is the same as merging it once. */
  lemma SetPOSDataIdempotent(s: PosState, p: PosPatch)
    ensures SetPOSData(SetPOSData(s, p), p) == SetPOSData(s, p)
  {
  }

  /** `clearPOSData`: the initial state, whatever the current one. */
  function ClearPOSData(s: PosState): (r: PosState)
    ensures r == InitialPos
    ensures r.cart == [] && r.customerName == "Guest" && r.total == 0.0
  {
    InitialPos
  }
}
