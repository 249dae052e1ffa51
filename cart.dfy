/**
 * The shopping-cart store of frontend/src/utils/CartContext.jsx.
 *
 * The store holds an ordered list of line items.  Each mutating operation
 * replaces the list with a new one built from the old one (find / map /
 * filter / append); `CartStore` is that state as a class whose methods are
 * specified by the pure list functions `Added`, `Removed` and `Updated`
 * below, and the lemmas state what those functions do to a cart.
 *
 * Line identity is (id, color, size), but a lookup compares the STORED color
 * and size with the RAW option values while a new line stores the option
 * value or ''.  Options are therefore `Option<string>`: an absent option
 * never equals a stored string.
 */
module Cart {
  import opened Common

  /** The fields of a product that addToCart copies into a line. */
  datatype Product = Product(id: int, name: string, price: int, image: string, stock: Option<nat>)

  /** The `options` argument: either field may be absent (`addToCart(product, 1)` passes none). */
  datatype Options = Options(color: Option<string>, size: Option<string>)

  const NoOptions := Options(None, None)

  datatype Line = Line(id: int, name: string, price: int, image: string, quantity: int,
                       color: string, size: string, stock: Option<nat>)

  /** `stock || 999`: a missing or zero stock means a ceiling of 999. */
  function StockCap(stock: Option<nat>): (cap: nat)
    ensures cap >= 1
    ensures stock.Some? && stock.value > 0 ==> cap == stock.value
    ensures (stock == None || stock == Some(0)) ==> cap == 999
  {
    match stock
    case None => 999
    case Some(s) => if s == 0 then 999 else s
  }

  /** `item.id === id && item.color === options.color && item.size === options.size` */
  predicate Matches(line: Line, id: int, opts: Options)
  {
    line.id == id && opts.color == Some(line.color) && opts.size == Some(line.size)
  }

  predicate HasMatch(items: seq<Line>, id: int, opts: Options)
  {
    exists i | 0 <= i < |items| :: Matches(items[i], id, opts)
  }

  /** `prevItems.find(...)`: the first matching line, if any. */
  function Find(items: seq<Line>, id: int, opts: Options): (r: Option<Line>)
    ensures r.Some? <==> HasMatch(items, id, opts)
    ensures r.Some? ==> exists i | 0 <= i < |items| ::
      items[i] == r.value && Matches(r.value, id, opts)
      && forall k :: 0 <= k < i ==> !Matches(items[k], id, opts)
  {
    if items == [] then None
    else if Matches(items[0], id, opts) then Some(items[0])
    else
      var r := Find(items[1..], id, opts);
      assert HasMatch(items, id, opts) ==> HasMatch(items[1..], id, opts) by {
        if HasMatch(items, id, opts) {
          var i :| 0 <= i < |items| && Matches(items[i], id, opts);
          assert items[1..][i - 1] == items[i];
        }
      }
      assert r.Some? ==> exists i | 0 <= i < |items| ::
        items[i] == r.value && Matches(r.value, id, opts)
        && forall k :: 0 <= k < i ==> !Matches(items[k], id, opts) by {
        if r.Some? {
          var i :| 0 <= i < |items[1..]| && items[1..][i] == r.value && Matches(r.value, id, opts)
            && forall k :: 0 <= k < i ==> !Matches(items[1..][k], id, opts);
          assert items[i + 1] == r.value;
          forall k | 0 <= k < i + 1 ensures !Matches(items[k], id, opts) {
            if k > 0 { assert items[k] == items[1..][k - 1]; }
          }
        }
      }
      r
  }

  /** The line addToCart appends: the option values, or '' when absent. */
  function NewLine(product: Product, quantity: int, opts: Options): Line
  {
    Line(product.id, product.name, product.price, product.image, quantity,
         opts.color.GetOr(""), opts.size.GetOr(""), product.stock)
  }

  /** The `map` branch of addToCart: every matching line gains `quantity`. */
  function Bumped(items: seq<Line>, id: int, opts: Options, quantity: int): seq<Line>
  {
    seq(|items|, i requires 0 <= i < |items| =>
      if Matches(items[i], id, opts) then items[i].(quantity := items[i].quantity + quantity) else items[i])
  }

  /** The list addToCart produces. */
  function Added(items: seq<Line>, product: Product, quantity: int, opts: Options): seq<Line>
  {
    if Find(items, product.id, opts).Some? then Bumped(items, product.id, opts, quantity)
    else items + [NewLine(product, quantity, opts)]
  }

  /** The list removeFromCart produces: the lines that do not match, in order. */
  function Removed(items: seq<Line>, id: int, opts: Options): seq<Line>
  {
    if items == [] then []
    else (if Matches(items[0], id, opts) then [] else [items[0]]) + Removed(items[1..], id, opts)
  }

  /** The `map` of updateQuantity for a positive quantity, capped by each line's stock. */
  function Clamped(items: seq<Line>, id: int, opts: Options, quantity: int): seq<Line>
  {
    seq(|items|, i requires 0 <= i < |items| =>
      if Matches(items[i], id, opts) then items[i].(quantity := Min(quantity, StockCap(items[i].stock))) else items[i])
  }

  /** The list updateQuantity produces. */
  function Updated(items: seq<Line>, id: int, quantity: int, opts: Options): seq<Line>
  {
    if quantity <= 0 then Removed(items, id, opts) else Clamped(items, id, opts, quantity)
  }

  /** `reduce((total, item) => total + item.price * item.quantity, 0)` */
  function Total(items: seq<Line>): int
  {
    if items == [] then 0
    else Total(items[..|items| - 1]) + items[|items| - 1].price * items[|items| - 1].quantity
  }

  /** `reduce((count, item) => count + item.quantity, 0)` */
  function Count(items: seq<Line>): int
  {
    if items == [] then 0 else Count(items[..|items| - 1]) + items[|items| - 1].quantity
  }

  /** How many lines match a key. */
  function MatchCount(items: seq<Line>, id: int, opts: Options): nat
  {
    if items == [] then 0
    else MatchCount(items[..|items| - 1], id, opts) + (if Matches(items[|items| - 1], id, opts) then 1 else 0)
  }

  // ------------------------------------------------------------------ add

  /** With no matching line, add appends exactly one line built from the product and options. */
  lemma AddAppendsNewLine(items: seq<Line>, product: Product, quantity: int, opts: Options)
    requires !HasMatch(items, product.id, opts)
    ensures var r := Added(items, product, quantity, opts);
      && |r| == |items| + 1 && r[..|items|] == items
      && r[|items|].id == product.id && r[|items|].quantity == quantity
      && r[|items|].name == product.name && r[|items|].image == product.image
      && r[|items|].price == product.price && r[|items|].stock == product.stock
      && r[|items|].color == (if opts.color.Some? then opts.color.value else "")
      && r[|items|].size == (if opts.size.Some? then opts.size.value else "")
  {
    assert (items + [NewLine(product, quantity, opts)])[..|items|] == items;
  }

  /** With a matching line, add keeps the length and raises every matching line by quantity, with no stock cap. */
  lemma AddMergesExisting(items: seq<Line>, product: Product, quantity: int, opts: Options)
    requires HasMatch(items, product.id, opts)
    ensures var r := Added(items, product, quantity, opts);
      && |r| == |items|
      && (forall i :: 0 <= i < |items| && Matches(items[i], product.id, opts) ==>
            r[i] == items[i].(quantity := items[i].quantity + quantity))
      && (forall i :: 0 <= i < |items| && !Matches(items[i], product.id, opts) ==> r[i] == items[i])
  {
  }

  /** An add whose color or size option is absent never merges: it always appends a line. */
  lemma AddWithoutOptionAppends(items: seq<Line>, product: Product, quantity: int, opts: Options)
    requires opts.color == None || opts.size == None
    ensures Added(items, product, quantity, opts) == items + [NewLine(product, quantity, opts)]
  {
  }

  lemma {:induction false} CountAppend(a: seq<Line>, b: seq<Line>)
    ensures Count(a + b) == Count(a) + Count(b)
    decreases |b|
  {
    if b == [] {
      assert a + b == a;
    } else {
      assert (a + b)[..|a + b| - 1] == a + b[..|b| - 1];
      CountAppend(a, b[..|b| - 1]);
    }
  }

  lemma {:induction false} CountBumped(items: seq<Line>, id: int, opts: Options, quantity: int)
    ensures Count(Bumped(items, id, opts, quantity)) == Count(items) + quantity * MatchCount(items, id, opts)
  {
    if items != [] {
      var init := items[..|items| - 1];
      assert Bumped(items, id, opts, quantity)[..|items| - 1] == Bumped(init, id, opts, quantity);
      CountBumped(init, id, opts, quantity);
    }
  }

  lemma {:induction false} MatchCountPositive(items: seq<Line>, id: int, opts: Options)
    ensures MatchCount(items, id, opts) > 0 <==> HasMatch(items, id, opts)
  {
    if items != [] {
      var init := items[..|items| - 1];
      MatchCountPositive(init, id, opts);
      if HasMatch(items, id, opts) && !Matches(items[|items| - 1], id, opts) {
        var i :| 0 <= i < |items| && Matches(items[i], id, opts);
        assert init[i] == items[i];
      }
      if HasMatch(init, id, opts) {
        var i :| 0 <= i < |init| && Matches(init[i], id, opts);
        assert items[i] == init[i];
      }
    }
  }

  /** The item count grows by quantity for every line the add touched, or by quantity for a new line. */
  lemma AddCount(items: seq<Line>, product: Product, quantity: int, opts: Options)
    ensures Count(Added(items, product, quantity, opts)) ==
      Count(items) + quantity * (if HasMatch(items, product.id, opts) then MatchCount(items, product.id, opts) else 1)
  {
    if HasMatch(items, product.id, opts) {
      CountBumped(items, product.id, opts, quantity);
    } else {
      CountAppend(items, [NewLine(product, quantity, opts)]);
      assert Count([NewLine(product, quantity, opts)]) == quantity;
    }
  }

  /** Adding the same fully-specified key twice to a cart without it yields one new line holding q1 + q2. */
  lemma AddTwiceMerges(items: seq<Line>, product: Product, q1: int, q2: int, color: string, size: string)
    requires !HasMatch(items, product.id, Options(Some(color), Some(size)))
    ensures var opts := Options(Some(color), Some(size));
      var r := Added(Added(items, product, q1, opts), product, q2, opts);
      && |r| == |items| + 1 && r[..|items|] == items
      && r[|items|] == NewLine(product, q1 + q2, opts)
  {
    var opts := Options(Some(color), Some(size));
    var once := Added(items, product, q1, opts);
    assert once == items + [NewLine(product, q1, opts)];
    assert Matches(once[|items|], product.id, opts);
    var twice := Added(once, product, q2, opts);
    assert twice[..|items|] == items;
  }

  /** Stock is not checked at add time: a line can be pushed above its stock ceiling. */
  lemma AddMayExceedStock()
    ensures var line := Line(1, "shirt", 100, "", 1, "red", "M", Some(1));
      var product := Product(1, "shirt", 100, "", Some(1));
      var r := Added([line], product, 1, Options(Some("red"), Some("M")));
      WithinStock([line]) && !WithinStock(r) && r[0].quantity == 2
  {
    var line := Line(1, "shirt", 100, "", 1, "red", "M", Some(1));
    var product := Product(1, "shirt", 100, "", Some(1));
    var opts := Options(Some("red"), Some("M"));
    assert Matches([line][0], 1, opts);
    assert HasMatch([line], 1, opts);
    var r := Added([line], product, 1, opts);
    assert r == Bumped([line], 1, opts, 1);
    assert r[0] == line.(quantity := 2);
  }

  // --------------------------------------------------------------- remove

  /** Remove deletes exactly the matching lines: none is left, every other line keeps its multiplicity. */
  lemma {:induction false} RemovedSpec(items: seq<Line>, id: int, opts: Options)
    ensures var r := Removed(items, id, opts);
      && |r| <= |items|
      && (forall i :: 0 <= i < |r| ==> !Matches(r[i], id, opts))
      && (forall l :: !Matches(l, id, opts) ==> multiset(r)[l] == multiset(items)[l])
      && (forall l :: Matches(l, id, opts) ==> multiset(r)[l] == 0)
  {
    RemovedNoneMatch(items, id, opts);
    forall l
      ensures multiset(Removed(items, id, opts))[l] == if Matches(l, id, opts) then 0 else multiset(items)[l]
    {
      RemovedMultiplicity(items, id, opts, l);
    }
  }

  lemma {:induction false} RemovedNoneMatch(items: seq<Line>, id: int, opts: Options)
    ensures |Removed(items, id, opts)| <= |items|
    ensures forall i :: 0 <= i < |Removed(items, id, opts)| ==> !Matches(Removed(items, id, opts)[i], id, opts)
  {
    if items != [] {
      var head: seq<Line> := if Matches(items[0], id, opts) then [] else [items[0]];
      var rest := Removed(items[1..], id, opts);
      RemovedNoneMatch(items[1..], id, opts);
      assert Removed(items, id, opts) == head + rest;
      forall i | 0 <= i < |head + rest|
        ensures !Matches((head + rest)[i], id, opts)
      {
        if i >= |head| {
          assert (head + rest)[i] == rest[i - |head|];
        }
      }
    }
  }

  lemma {:induction false} RemovedMultiplicity(items: seq<Line>, id: int, opts: Options, l: Line)
    ensures multiset(Removed(items, id, opts))[l] == if Matches(l, id, opts) then 0 else multiset(items)[l]
  {
    if items != [] {
      var head: seq<Line> := if Matches(items[0], id, opts) then [] else [items[0]];
      var rest := Removed(items[1..], id, opts);
      RemovedMultiplicity(items[1..], id, opts, l);
      assert Removed(items, id, opts) == head + rest;
      assert items == [items[0]] + items[1..];
      assert multiset(items)[l] == multiset([items[0]])[l] + multiset(items[1..])[l];
      assert multiset(head + rest)[l] == multiset(head)[l] + multiset(rest)[l];
    }
  }

  /** Remove keeps the surviving lines in their order: it distributes over concatenation. */
  lemma {:induction false} RemovedAppend(a: seq<Line>, b: seq<Line>, id: int, opts: Options)
    ensures Removed(a + b, id, opts) == Removed(a, id, opts) + Removed(b, id, opts)
  {
    if a == [] {
      assert a + b == b;
    } else {
      assert (a + b)[0] == a[0];
      assert (a + b)[1..] == a[1..] + b;
      RemovedAppend(a[1..], b, id, opts);
    }
  }

  /** Remove is a no-op when nothing matches. */
  lemma {:induction false} RemovedNoMatch(items: seq<Line>, id: int, opts: Options)
    requires !HasMatch(items, id, opts)
    ensures Removed(items, id, opts) == items
  {
    if items != [] {
      assert !Matches(items[0], id, opts);
      forall i | 0 <= i < |items[1..]|
        ensures !Matches(items[1..][i], id, opts)
      {
        assert items[1..][i] == items[i + 1];
      }
      RemovedNoMatch(items[1..], id, opts);
    }
  }

  /** Removing twice is removing once. */
  lemma RemovedIdempotent(items: seq<Line>, id: int, opts: Options)
    ensures Removed(Removed(items, id, opts), id, opts) == Removed(items, id, opts)
  {
    RemovedSpec(items, id, opts);
    RemovedNoMatch(Removed(items, id, opts), id, opts);
  }

  // --------------------------------------------------------------- update

  /** updateQuantity with a quantity of zero or less is removeFromCart with the same arguments. */
  lemma UpdateNonPositiveRemoves(items: seq<Line>, id: int, quantity: int, opts: Options)
    requires quantity <= 0
    ensures Updated(items, id, quantity, opts) == Removed(items, id, opts)
  {
  }

  /** A positive update sets every matching line to min(quantity, stock ceiling), within [1, ceiling]; nothing else moves. */
  lemma UpdatePositiveClamps(items: seq<Line>, id: int, quantity: int, opts: Options)
    requires quantity > 0
    ensures var r := Updated(items, id, quantity, opts);
      && |r| == |items|
      && (forall i :: 0 <= i < |items| && Matches(items[i], id, opts) ==>
            && r[i] == items[i].(quantity := r[i].quantity)
            && r[i].quantity == (if quantity <= StockCap(items[i].stock) then quantity else StockCap(items[i].stock))
            && 1 <= r[i].quantity <= StockCap(items[i].stock))
      && (forall i :: 0 <= i < |items| && !Matches(items[i], id, opts) ==> r[i] == items[i])
  {
  }

  /** Every line holds between 1 and its stock ceiling. */
  ghost predicate WithinStock(items: seq<Line>)
  {
    forall i :: 0 <= i < |items| ==> 1 <= items[i].quantity <= StockCap(items[i].stock)
  }

  /** update and remove keep every line within [1, stock ceiling] (add does not, see AddMayExceedStock). */
  lemma UpdatePreservesWithinStock(items: seq<Line>, id: int, quantity: int, opts: Options)
    requires WithinStock(items)
    ensures WithinStock(Updated(items, id, quantity, opts))
    ensures WithinStock(Removed(items, id, opts))
  {
    RemovedKeepsWithinStock(items, id, opts);
  }

  lemma {:induction false} RemovedKeepsWithinStock(items: seq<Line>, id: int, opts: Options)
    requires WithinStock(items)
    ensures WithinStock(Removed(items, id, opts))
  {
    if items != [] {
      var head: seq<Line> := if Matches(items[0], id, opts) then [] else [items[0]];
      var rest := Removed(items[1..], id, opts);
      assert WithinStock(items[1..]) by {
        forall i | 0 <= i < |items[1..]|
          ensures 1 <= items[1..][i].quantity <= StockCap(items[1..][i].stock)
        {
          assert items[1..][i] == items[i + 1];
        }
      }
      RemovedKeepsWithinStock(items[1..], id, opts);
      assert Removed(items, id, opts) == head + rest;
      forall i | 0 <= i < |head + rest|
        ensures 1 <= (head + rest)[i].quantity <= StockCap((head + rest)[i].stock)
      {
        if i >= |head| {
          assert (head + rest)[i] == rest[i - |head|];
        }
      }
    }
  }

  // --------------------------------------------------------------- totals

  lemma {:induction false} TotalAppend(a: seq<Line>, b: seq<Line>)
    ensures Total(a + b) == Total(a) + Total(b)
    decreases |b|
  {
    if b == [] {
      assert a + b == a;
    } else {
      assert (a + b)[..|a + b| - 1] == a + b[..|b| - 1];
      TotalAppend(a, b[..|b| - 1]);
    }
  }

  /** The cart total does not depend on line order. */
  lemma {:induction false} TotalPermutationInvariant(a: seq<Line>, b: seq<Line>)
    requires multiset(a) == multiset(b)
    ensures Total(a) == Total(b)
    decreases |a|
  {
    if a == [] {
      assert |b| == |multiset(b)| == 0;
    } else {
      var x := a[|a| - 1];
      var init := a[..|a| - 1];
      assert a == init + [x];
      assert x in multiset(b);
      var k :| 0 <= k < |b| && b[k] == x;
      var rest := b[..k] + b[k + 1..];
      assert b == b[..k] + [x] + b[k + 1..];
      assert multiset(a) == multiset(init) + multiset{x};
      assert multiset(b) == multiset(b[..k]) + multiset{x} + multiset(b[k + 1..]);
      assert multiset(rest) == multiset(b[..k]) + multiset(b[k + 1..]);
      assert multiset(init) == multiset(a) - multiset{x};
      assert multiset(rest) == multiset(b) - multiset{x};
      TotalPermutationInvariant(init, rest);
      TotalAppend(b[..k] + [x], b[k + 1..]);
      TotalAppend(b[..k], [x]);
      TotalAppend(b[..k], b[k + 1..]);
    }
  }

  /** Both folds are 0 on an empty cart, and non-negative when every price and quantity is. */
  lemma {:induction false} FoldsNonNegative(items: seq<Line>)
    requires forall i :: 0 <= i < |items| ==> items[i].price >= 0 && items[i].quantity >= 0
    ensures Total(items) >= 0 && Count(items) >= 0
    ensures items == [] ==> Total(items) == 0 && Count(items) == 0
  {
    if items != [] {
      FoldsNonNegative(items[..|items| - 1]);
    }
  }

  // ------------------------------------------------ finding: absent options

  /** The key a line is identified by. */
  function Key(line: Line): (int, string, string)
  {
    (line.id, line.color, line.size)
  }

  ghost predicate UniqueKeys(items: seq<Line>)
  {
    forall i, j :: 0 <= i < j < |items| ==> Key(items[i]) != Key(items[j])
  }

  /**
   * As written: `addToCart(product, 1)` twice (the product card's call)
   * leaves two lines with the same key (id, '', '') instead of one line of 2.
   */
  lemma AddWithoutOptionsDuplicatesKey(items: seq<Line>, product: Product)
    ensures var twice := Added(Added(items, product, 1, NoOptions), product, 1, NoOptions);
      && |twice| == |items| + 2
      && Key(twice[|items|]) == Key(twice[|items| + 1]) == (product.id, "", "")
      && !UniqueKeys(twice)
  {
    AddWithoutOptionAppends(items, product, 1, NoOptions);
    AddWithoutOptionAppends(Added(items, product, 1, NoOptions), product, 1, NoOptions);
  }

  /** The options as they are stored: absent becomes ''. */
  function Normalized(opts: Options): (n: Options)
    ensures n.color.Some? && n.size.Some?
    ensures opts.color.Some? ==> n.color == opts.color
    ensures opts.color.None? ==> n.color == Some("")
    ensures opts.size.Some? ==> n.size == opts.size
    ensures opts.size.None? ==> n.size == Some("")
  {
    Options(Some(opts.color.GetOr("")), Some(opts.size.GetOr("")))
  }

  /** Corrected add: looks the line up by the same normalised key it stores. */
  function AddedNormalized(items: seq<Line>, product: Product, quantity: int, opts: Options): seq<Line>
  {
    Added(items, product, quantity, Normalized(opts))
  }

  /** The corrected add never creates a second line for a key. */
  lemma AddedNormalizedKeepsKeysUnique(items: seq<Line>, product: Product, quantity: int, opts: Options)
    requires UniqueKeys(items)
    ensures UniqueKeys(AddedNormalized(items, product, quantity, opts))
  {
    var n := Normalized(opts);
    var r := AddedNormalized(items, product, quantity, opts);
    if !HasMatch(items, product.id, n) {
      var line := NewLine(product, quantity, n);
      forall i, j | 0 <= i < j < |r|
        ensures Key(r[i]) != Key(r[j])
      {
        if j == |items| {
          assert !Matches(items[i], product.id, n);
        }
      }
    }
  }

  /** When both options are given (as on the product page) the corrected add is the add as written. */
  lemma AddedNormalizedAgrees(items: seq<Line>, product: Product, quantity: int, opts: Options)
    requires opts.color.Some? && opts.size.Some?
    ensures AddedNormalized(items, product, quantity, opts) == Added(items, product, quantity, opts)
  {
  }

  // ---------------------------------------------------------------- store

  /** The cart provider's state: `cartItems`. */
  class CartStore {
    var items: seq<Line>

    /** An empty cart (the localStorage rehydration is not modelled). */
    constructor ()
      ensures items == []
    {
      items := [];
    }

    method AddToCart(product: Product, quantity: int, opts: Options)
      modifies this
      ensures items == Added(old(items), product, quantity, opts)
      ensures |items| == |old(items)| + (if HasMatch(old(items), product.id, opts) then 0 else 1)
    {
      var existing := Find(items, product.id, opts);
      if existing.Some? {
        items := Bumped(items, product.id, opts, quantity);
      } else {
        items := items + [NewLine(product, quantity, opts)];
      }
    }

    method RemoveFromCart(id: int, opts: Options)
      modifies this
      ensures items == Removed(old(items), id, opts)
    {
      items := Removed(items, id, opts);
    }

    method UpdateQuantity(id: int, quantity: int, opts: Options)
      modifies this
      ensures items == Updated(old(items), id, quantity, opts)
      ensures |items| <= |old(items)|
    {
      if quantity <= 0 {
        RemoveFromCart(id, opts);
        RemovedSpec(old(items), id, opts);
        return;
      }
      items := Clamped(items, id, opts, quantity);
    }

    method ClearCart()
      modifies this
      ensures items == []
    {
      items := [];
    }

    function GetCartTotal(): (total: int)
      reads this
      ensures items == [] ==> total == 0
      ensures (forall i :: 0 <= i < |items| ==> items[i].price >= 0 && items[i].quantity >= 0) ==> total >= 0
    {
      if forall i :: 0 <= i < |items| ==> items[i].price >= 0 && items[i].quantity >= 0 then
        FoldsNonNegative(items); Total(items)
      else Total(items)
    }

    function GetCartCount(): (count: int)
      reads this
      ensures items == [] ==> count == 0
      ensures (forall i :: 0 <= i < |items| ==> items[i].quantity >= 1) ==> count >= |items|
    {
      CountAtLeastLines(items); Count(items)
    }
  }

  /** With every quantity at least 1, the unit count is at least the number of lines. */
  lemma {:induction false} CountAtLeastLines(items: seq<Line>)
    ensures (forall i :: 0 <= i < |items| ==> items[i].quantity >= 1) ==> Count(items) >= |items|
    ensures items == [] ==> Count(items) == 0
  {
    if items != [] {
      CountAtLeastLines(items[..|items| - 1]);
    }
  }
}
