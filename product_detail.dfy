/**
 * The product page's quantity stepper: a quantity kept within [1, 10] by a
 * guarded handler, and the add-to-cart request that uses it.
 */
module ProductDetail {
  import opened Catalog
  import opened CartEngine

  const MinQuantity := 1
  const MaxQuantity := 10

  /** `handleQuantityChange(change)`: the new quantity when it stays within
      the bounds, otherwise the old one. */
  function Step(quantity: int, change: int): (r: int)
    ensures MinQuantity <= quantity + change <= MaxQuantity ==> r == quantity + change
    ensures !(MinQuantity <= quantity + change <= MaxQuantity) ==> r == quantity
  {
    var newQuantity := quantity + change;
    if MinQuantity <= newQuantity <= MaxQuantity then newQuantity else quantity
  }

  /** The quantity after a series of button presses. */
  function Steps(quantity: int, changes: seq<int>): int
    decreases |changes|
  {
    if changes == [] then quantity else Steps(Step(quantity, changes[0]), changes[1..])
  }

  /** Starting from any quantity within the bounds, every series of presses
      ends within the bounds. */
  lemma {:induction false} StepsStayInBounds(quantity: int, changes: seq<int>)
    requires MinQuantity <= quantity <= MaxQuantity
    ensures MinQuantity <= Steps(quantity, changes) <= MaxQuantity
    decreases |changes|
  {
    if changes != [] {
      StepsStayInBounds(Step(quantity, changes[0]), changes[1..]);
    }
  }

  class ProductDetailPage {
    const product: Product
    var quantity: int

    ghost predicate Valid()
      reads this
    {
      MinQuantity <= quantity <= MaxQuantity
    }

    /** The page opens with quantity 1. */
    constructor(product: Product)
      ensures Valid() && quantity == 1 && this.product == product
    {
      this.product := product;
      quantity := 1;
    }

    method HandleQuantityChange(change: int)
      requires Valid()
      modifies this
      ensures Valid()
      ensures quantity == Step(old(quantity), change)
    {
      var newQuantity := quantity + change;
      if newQuantity >= 1 && newQuantity <= 10 {
        quantity := newQuantity;
      }
    }

    /** `addItem(product, quantity)`: every add from this page asks for
        between 1 and 10 units of the page's product. */
    method HandleAddToCart() returns (op: CartOp)
      requires Valid()
      ensures op == AddItem(product, quantity)
      ensures MinQuantity <= op.quantity <= MaxQuantity
    {
      op := AddItem(product, quantity);
    }

    /** `disabled={quantity <= 1}` on "-". */
    function MinusDisabled(): (d: bool)
      reads this
      requires Valid()
      ensures d <==> Step(quantity, -1) == quantity
    {
      quantity <= 1
    }

    /** `disabled={quantity >= 10}` on "+". */
    function PlusDisabled(): (d: bool)
      reads this
      requires Valid()
      ensures d <==> Step(quantity, 1) == quantity
    {
      quantity >= 10
    }
  }

  /** Any series of presses on a freshly opened page leaves a quantity in
      [1, 10], and so the add-to-cart request asks for 1 to 10 units. */
  method PressAll(product: Product, changes: seq<int>) returns (op: CartOp)
    ensures op == AddItem(product, Steps(1, changes))
    ensures MinQuantity <= op.quantity <= MaxQuantity
  {
    var page := new ProductDetailPage(product);
    var i := 0;
    while i < |changes|
      invariant 0 <= i <= |changes|
      invariant page.Valid() && page.product == product
      invariant Steps(1, changes) == Steps(page.quantity, changes[i..])
      modifies page
    {
      assert changes[i..][1..] == changes[i + 1..];
      page.HandleQuantityChange(changes[i]);
      i := i + 1;
    }
    op := page.HandleAddToCart();
  }
}
