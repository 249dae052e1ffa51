/**
 * The purchase controls of frontend/src/pages/ProductDetail.jsx: the quantity
 * stepper, the chosen color and size, and the guards in front of the cart's
 * add (`handleAddToCart`, `handleBuyNow`).  The page's state is a class whose
 * handlers overwrite it; the add goes to the shared `Cart.CartStore`.
 */
module ProductDetail {
  import opened Common
  import Cart

  /** The loaded product: the cart's view of it plus `variants?.colors || []` and `variants?.sizes || []`. */
  datatype DetailProduct = DetailProduct(item: Cart.Product, colors: seq<string>, sizes: seq<string>)

  // -------------------------------------------------------------- stepper

  /** `dec`: `Math.max(1, prev - 1)`. */
  function Decremented(qty: int): (r: int)
    ensures r >= 1
    ensures qty >= 2 ==> r == qty - 1
    ensures qty >= 1 ==> r <= qty
  {
    if qty - 1 < 1 then 1 else qty - 1
  }

  /** `inc`: `Math.min(prev + 1, product.stock || 999)`. */
  function Incremented(qty: int, stock: Option<nat>): (r: int)
    ensures r <= Cart.StockCap(stock) && r <= qty + 1
    ensures qty < Cart.StockCap(stock) ==> r == qty + 1
    ensures qty <= Cart.StockCap(stock) ==> r >= qty
  {
    var cap := Cart.StockCap(stock);
    if qty + 1 <= cap then qty + 1 else cap
  }

  /** A press of one of the stepper's buttons. */
  datatype Press = Dec | Inc

  /** The quantity after a series of presses. */
  function Stepped(qty: int, presses: seq<Press>, stock: Option<nat>): int
    decreases |presses|
  {
    if presses == [] then qty
    else Stepped(if presses[0] == Dec then Decremented(qty) else Incremented(qty, stock), presses[1..], stock)
  }

  /** From the initial 1, no sequence of presses leaves [1, stock || 999]. */
  lemma {:induction false} StepperStaysInRange(qty: int, presses: seq<Press>, stock: Option<nat>)
    requires 1 <= qty <= Cart.StockCap(stock)
    ensures 1 <= Stepped(qty, presses, stock) <= Cart.StockCap(stock)
    decreases |presses|
  {
    if presses != [] {
      var next := if presses[0] == Dec then Decremented(qty) else Incremented(qty, stock);
      StepperStaysInRange(next, presses[1..], stock);
    }
  }

  /** Pressing + enough times reaches the ceiling and stays there. */
  lemma {:induction false} IncrementsReachCeiling(qty: int, n: nat, stock: Option<nat>)
    requires 1 <= qty <= Cart.StockCap(stock)
    requires n >= Cart.StockCap(stock) - qty
    ensures Stepped(qty, seq(n, _ => Inc), stock) == Cart.StockCap(stock)
    decreases n
  {
    if n > 0 {
      var presses := seq(n, _ => Inc);
      assert presses[1..] == seq(n - 1, _ => Inc);
      IncrementsReachCeiling(Incremented(qty, stock), n - 1, stock);
    }
  }

  // --------------------------------------------------------------- guards

  /** What a click on "add" / "buy now" leads to. */
  datatype Outcome = AskColor | AskSize | Proceed

  /** The two early returns: a color is required when the product has colors, then a size likewise. */
  function AddGuard(colors: seq<string>, sizes: seq<string>, color: string, size: string): (o: Outcome)
  {
    if |colors| > 0 && color == "" then AskColor
    else if |sizes| > 0 && size == "" then AskSize
    else Proceed
  }

  /** The add proceeds iff each variant list is empty or has a choice; a missing color is reported first. */
  lemma AddGuardSpec(colors: seq<string>, sizes: seq<string>, color: string, size: string)
    ensures AddGuard(colors, sizes, color, size) == Proceed <==>
      (colors == [] || color != "") && (sizes == [] || size != "")
    ensures AddGuard(colors, sizes, color, size) == AskColor <==> colors != [] && color == ""
    ensures AddGuard(colors, sizes, color, size) == AskSize <==>
      (colors == [] || color != "") && sizes != [] && size == ""
  {
  }

  /** Every add from this page passes both options, so it never duplicates a cart key. */
  lemma DetailAddKeepsKeysUnique(items: seq<Cart.Line>, product: Cart.Product, qty: int, color: string, size: string)
    requires Cart.UniqueKeys(items)
    ensures Cart.UniqueKeys(Cart.Added(items, product, qty, Cart.Options(Some(color), Some(size))))
  {
    var opts := Cart.Options(Some(color), Some(size));
    Cart.AddedNormalizedAgrees(items, product, qty, opts);
    Cart.AddedNormalizedKeepsKeysUnique(items, product, qty, opts);
  }

  /** After an add from this page, a line with the product's id, color and size is in the cart. */
  lemma DetailAddHasLine(items: seq<Cart.Line>, product: Cart.Product, qty: int, color: string, size: string)
    ensures var opts := Cart.Options(Some(color), Some(size));
      Cart.HasMatch(Cart.Added(items, product, qty, opts), product.id, opts)
  {
    var opts := Cart.Options(Some(color), Some(size));
    var r := Cart.Added(items, product, qty, opts);
    if Cart.HasMatch(items, product.id, opts) {
      Cart.AddMergesExisting(items, product, qty, opts);
      var i :| 0 <= i < |items| && Cart.Matches(items[i], product.id, opts);
      assert Cart.Matches(r[i], product.id, opts);
    } else {
      Cart.AddAppendsNewLine(items, product, qty, opts);
      assert Cart.Matches(r[|items|], product.id, opts);
    }
  }

  // ----------------------------------------------------------- page state

  class ProductDetailView {
    const product: DetailProduct
    var color: string
    var size: string
    var qty: int

    /** The stepper and the choices as the page mounts with a loaded product. */
    constructor (p: DetailProduct)
      ensures product == p && color == "" && size == "" && qty == 1
      ensures StepperInRange()
    {
      product := p;
      color, size, qty := "", "", 1;
    }

    /** The quantity lies in [1, stock || 999]. */
    predicate StepperInRange()
      reads this
    {
      1 <= qty <= Cart.StockCap(product.item.stock)
    }

    method Decrement()
      modifies this
      ensures qty == Decremented(old(qty))
      ensures color == old(color) && size == old(size)
      ensures old(StepperInRange()) ==> StepperInRange()
    {
      qty := Decremented(qty);
    }

    method Increment()
      modifies this
      ensures qty == Incremented(old(qty), product.item.stock)
      ensures color == old(color) && size == old(size)
      ensures old(StepperInRange()) ==> StepperInRange()
    {
      qty := Incremented(qty, product.item.stock);
    }

    /** A click on a color swatch. */
    method ChooseColor(c: string)
      modifies this
      ensures color == c && size == old(size) && qty == old(qty)
    {
      color := c;
    }

    /** A click on a size button. */
    method ChooseSize(s: string)
      modifies this
      ensures size == s && color == old(color) && qty == old(qty)
    {
      size := s;
    }

    /** `handleAddToCart`: the guards, then `addToCart(product, qty, { color, size })`. */
    method HandleAddToCart(cart: Cart.CartStore) returns (outcome: Outcome)
      modifies cart
      ensures outcome == AddGuard(product.colors, product.sizes, color, size)
      ensures outcome == Proceed ==>
        cart.items == Cart.Added(old(cart.items), product.item, qty, Cart.Options(Some(color), Some(size)))
      ensures outcome != Proceed ==> cart.items == old(cart.items)
    {
      if |product.colors| > 0 && color == "" {
        return AskColor;
      }
      if |product.sizes| > 0 && size == "" {
        return AskSize;
      }
      cart.AddToCart(product.item, qty, Cart.Options(Some(color), Some(size)));
      outcome := Proceed;
    }

    /** `handleBuyNow`: the same guards and add, then navigation to the cart page. */
    method HandleBuyNow(cart: Cart.CartStore) returns (outcome: Outcome, goToCart: bool)
      modifies cart
      ensures outcome == AddGuard(product.colors, product.sizes, color, size)
      ensures goToCart <==> outcome == Proceed
      ensures outcome == Proceed ==>
        cart.items == Cart.Added(old(cart.items), product.item, qty, Cart.Options(Some(color), Some(size)))
      ensures outcome != Proceed ==> cart.items == old(cart.items)
    {
      outcome := HandleAddToCart(cart);
      goToCart := outcome == Proceed;
    }
  }
}
