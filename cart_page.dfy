/**
 * The requests the pages send to the cart engine. The engine itself (its
 * item store, merging, totals and persistence) is not part of this model:
 * a page only chooses which request to make and with which arguments.
 */
module CartEngine {
  import opened Catalog

  datatype CartOp =
    | AddItem(product: Product, quantity: int)
    | RemoveItem(productId: string)
    | UpdateQuantity(productId: string, quantity: int)

  /** A line of the cart as the engine hands it to the pages. */
  datatype CartItem = CartItem(product: Product, quantity: int)
}

/**
 * The cart page: quantity buttons, per-line prices and the order summary
 * (shipping, tax, total, free-shipping hint), all computed from the
 * engine's subtotal.
 */
module CartPage {
  import opened Wrappers
  import opened Catalog
  import opened CartEngine

  /** A requested quantity of zero or less removes the line; any other value
      is passed on unchanged, so `updateQuantity` never sees a non-positive
      quantity. */
  function HandleQuantityChange(productId: string, newQuantity: int): (op: CartOp)
    ensures op.RemoveItem? <==> newQuantity <= 0
    ensures op.RemoveItem? ==> op.productId == productId
    ensures op.UpdateQuantity? ==> op.productId == productId && op.quantity == newQuantity && op.quantity > 0
    ensures !op.AddItem?
  {
    if newQuantity <= 0 then RemoveItem(productId) else UpdateQuantity(productId, newQuantity)
  }

  /** The "-" button: at quantity 1 it removes the line, above 1 it lowers the
      quantity by one. */
  lemma DecrementButton(item: CartItem)
    requires item.quantity >= 1
    ensures var op := HandleQuantityChange(item.product.id, item.quantity - 1);
      if item.quantity == 1 then op == RemoveItem(item.product.id)
      else op == UpdateQuantity(item.product.id, item.quantity - 1)
  {
  }

  /** The "+" button always goes through `updateQuantity` with one more. */
  lemma IncrementButton(item: CartItem)
    requires item.quantity >= 0
    ensures HandleQuantityChange(item.product.id, item.quantity + 1) == UpdateQuantity(item.product.id, item.quantity + 1)
  {
  }

  // ---------------------------------------------------------------------------
  // Order summary

  const FreeShippingThreshold: real := 50.0
  const ShippingFee: real := 9.99
  const TaxRate: real := 0.08

  /** Shipping is free strictly above the threshold. */
  function Shipping(total: real): (r: real)
    ensures r == 0.0 <==> total > FreeShippingThreshold
    ensures r == 0.0 || r == ShippingFee
  {
    if total > FreeShippingThreshold then 0.0 else ShippingFee
  }

  /** 8% of the subtotal. */
  function Tax(total: real): (r: real)
    ensures total >= 0.0 ==> 0.0 <= r <= total
    ensures r * 25.0 == total * 2.0
  {
    total * TaxRate
  }

  /** What the customer pays: subtotal, shipping and tax. */
  function FinalTotal(total: real): (r: real)
    ensures total >= 0.0 ==> total <= r
    ensures total > FreeShippingThreshold ==> r == total * 1.08
    ensures total <= FreeShippingThreshold ==> r == total * 1.08 + ShippingFee
  {
    total + Shipping(total) + Tax(total)
  }

  /** Subtotal 25.00: shipping 9.99, tax 2.00, total 36.99. */
  lemma SummaryAt25()
    ensures Shipping(25.0) == 9.99 && Tax(25.0) == 2.0 && FinalTotal(25.0) == 36.99
  {
  }

  /** Subtotal 60.00: free shipping, tax 4.80, total 64.80. */
  lemma SummaryAt60()
    ensures Shipping(60.0) == 0.0 && Tax(60.0) == 4.8 && FinalTotal(60.0) == 64.8
  {
  }

  /** "Add $x more for free shipping!", shown only below the threshold. */
  function FreeShippingHint(total: real): (r: Option<real>)
    ensures r.Some? <==> total < FreeShippingThreshold
    ensures r.Some? ==> r.value > 0.0 && total + r.value == FreeShippingThreshold
  {
    if total < FreeShippingThreshold then Some(FreeShippingThreshold - total) else None
  }

  /** Whenever the hint is shown, shipping is charged; the converse fails at
      exactly the threshold, where shipping is charged and no hint is shown.
      Adding exactly the amount the hint names reaches the threshold, which
      still pays shipping. */
  lemma HintAndShipping(total: real)
    ensures FreeShippingHint(total).Some? ==> Shipping(total) == ShippingFee
    ensures FreeShippingHint(total).Some? ==> Shipping(total + FreeShippingHint(total).value) == ShippingFee
    ensures Shipping(FreeShippingThreshold) == ShippingFee && FreeShippingHint(FreeShippingThreshold).None?
  {
  }

  // ---------------------------------------------------------------------------
  // Line prices

  /** The bold per-line price. */
  function LineTotal(item: CartItem): (r: real)
    ensures item.quantity >= 1 && item.product.price >= 0.0 ==> r >= item.product.price
  {
    item.product.price * item.quantity as real
  }

  /** The struck-through per-line price, shown when the original price is
      truthy (present and non-zero). */
  function StruckLineTotal(item: CartItem): (r: Option<real>)
    ensures r.Some? <==> item.product.originalPrice.Some? && item.product.originalPrice.value != 0.0
    ensures r.Some? ==> r.value == item.product.originalPrice.value * item.quantity as real
  {
    match item.product.originalPrice
    case Some(op) => if op != 0.0 then Some(op * item.quantity as real) else None
    case None => None
  }

  /** A line whose product passes the catalog's on-sale test also shows a
      struck-through total, and the other way round. */
  lemma StruckLineIffOnSale(item: CartItem)
    ensures StruckLineTotal(item).Some? <==> MatchesOnSale(item.product, true)
  {
  }
}
