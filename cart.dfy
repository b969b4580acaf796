/** The cart engine of `lib/actions/cart.action.ts`: the pricing rule, the
    ordered list of cart lines, and the cart table that `addItemToCart`,
    `removeItemFromCart` and `getMyCart` read and write. All money is in
    integer cents. */
module Cart {
  import opened Common
  import opened Catalog

  /** One cart line: a snapshot of the product plus a quantity. */
  datatype CartItem = CartItem(
    productId: Id,
    name: string,
    slug: string,
    image: string,
    priceCents: nat,
    qty: int)

  /** The four money fields of a cart or an order, in cents. */
  datatype Prices = Prices(itemsPrice: int, shippingPrice: int, taxPrice: int, totalPrice: int)

  /** Shipping is free strictly above this many cents of items. */
  const FreeShippingAbove := 10000
  /** The flat shipping fee, in cents. */
  const ShippingFee := 1000

  function LineTotal(item: CartItem): int
  {
    item.priceCents * item.qty
  }

  /** `items.reduce((acc, item) => acc + price * qty, 0)`, folded from the
      left as the reduce does. */
  function ItemsTotal(items: seq<CartItem>): int
    decreases |items|
  {
    if items == [] then 0
    else ItemsTotal(items[..|items| - 1]) + LineTotal(items[|items| - 1])
  }

  /** The shipping rule: free strictly above 100.00, else 10.00. */
  function Shipping(itemsPrice: int): (r: int)
    ensures r == 0 <==> itemsPrice > FreeShippingAbove
    ensures r != 0 ==> r == ShippingFee
  {
    if itemsPrice > FreeShippingAbove then 0 else ShippingFee
  }

  /** 15 % tax, rounded to the nearest cent with halves rounded up. */
  function Tax(itemsPrice: int): (r: int)
    ensures -50 < 100 * r - 15 * itemsPrice <= 50
  {
    (15 * itemsPrice + 50) / 100
  }

  /** `calcPrice`: the totals every read and every write of a cart uses. */
  function CalcPrice(items: seq<CartItem>): (p: Prices)
    ensures p.itemsPrice == ItemsTotal(items)
    ensures p.shippingPrice == 0 <==> p.itemsPrice > FreeShippingAbove
    ensures p.shippingPrice != 0 ==> p.shippingPrice == ShippingFee
    ensures -50 < 100 * p.taxPrice - 15 * p.itemsPrice <= 50
    ensures p.totalPrice == p.itemsPrice + p.taxPrice + p.shippingPrice
  {
    var itemsPrice := ItemsTotal(items);
    var shipping := Shipping(itemsPrice);
    var tax := Tax(itemsPrice);
    Prices(itemsPrice, shipping, tax, itemsPrice + tax + shipping)
  }

  /** The boundary of the free-shipping rule: exactly 100.00 still pays the
      fee, one cent more ships free. */
  lemma ShippingBoundary(items: seq<CartItem>)
    ensures ItemsTotal(items) == 10000 ==> CalcPrice(items).shippingPrice == 1000 && CalcPrice(items).totalPrice == 12500
    ensures ItemsTotal(items) == 10001 ==> CalcPrice(items).shippingPrice == 0 && CalcPrice(items).totalPrice == 11501
  {
  }

  lemma {:induction false} ItemsTotalAppend(a: seq<CartItem>, b: seq<CartItem>)
    ensures ItemsTotal(a + b) == ItemsTotal(a) + ItemsTotal(b)
    decreases |b|
  {
    if b == [] {
      assert a + b == a;
    } else {
      var b' := b[..|b| - 1];
      assert (a + b)[..|a + b| - 1] == a + b';
      ItemsTotalAppend(a, b');
    }
  }

  /** Replacing one line changes the items total by the difference of the
      two line totals. */
  lemma ItemsTotalUpdate(items: seq<CartItem>, j: nat, x: CartItem)
    requires j < |items|
    ensures ItemsTotal(items[j := x]) == ItemsTotal(items) - LineTotal(items[j]) + LineTotal(x)
  {
    assert items == items[..j] + [items[j]] + items[j + 1..];
    assert items[j := x] == items[..j] + [x] + items[j + 1..];
    ItemsTotalAppend(items[..j] + [items[j]], items[j + 1..]);
    ItemsTotalAppend(items[..j], [items[j]]);
    ItemsTotalAppend(items[..j] + [x], items[j + 1..]);
    ItemsTotalAppend(items[..j], [x]);
    assert ItemsTotal([x]) == LineTotal(x) by { assert [x][..0] == []; }
    assert ItemsTotal([items[j]]) == LineTotal(items[j]) by { assert [items[j]][..0] == []; }
  }

  /** Dropping one line lowers the items total by exactly that line's total. */
  lemma ItemsTotalDrop(items: seq<CartItem>, j: nat)
    requires j < |items|
    ensures ItemsTotal(items[..j] + items[j + 1..]) == ItemsTotal(items) - LineTotal(items[j])
  {
    var a, x, b := items[..j], items[j], items[j + 1..];
    assert items == (a + [x]) + b;
    ItemsTotalAppend(a + [x], b);
    ItemsTotalAppend(a, [x]);
    ItemsTotalSingle(x);
    ItemsTotalAppend(a, b);
  }

  lemma ItemsTotalSingle(x: CartItem)
    ensures ItemsTotal([x]) == LineTotal(x)
  {
    assert [x][..0] == [];
  }

  /** No two lines of a cart name the same product. */
  ghost predicate UniqueProducts(items: seq<CartItem>)
  {
    forall i, j :: 0 <= i < j < |items| ==> items[i].productId != items[j].productId
  }

  /** Every line holds at least one unit. */
  ghost predicate PositiveQuantities(items: seq<CartItem>)
  {
    forall i :: 0 <= i < |items| ==> items[i].qty >= 1
  }

  /** `items.find(x => x.productId === productId)`, as an index. */
  function FindLine(items: seq<CartItem>, productId: Id): (r: Option<nat>)
    ensures r.Some? ==> r.value < |items| && items[r.value].productId == productId
    ensures r.None? <==> forall k :: 0 <= k < |items| ==> items[k].productId != productId
  {
    FirstWhere(items, (x: CartItem) => x.productId == productId)
  }

  /** Whether the product's stock lets `addItemToCart` touch an existing
      cart: one more than the line's quantity for a product already in the
      cart, at least one unit for a new line. */
  predicate StockAllows(items: seq<CartItem>, item: CartItem, stock: int)
    ensures FindLine(items, item.productId).Some? ==>
      (StockAllows(items, item, stock) <==> stock > items[FindLine(items, item.productId).value].qty)
    ensures FindLine(items, item.productId).None? ==> (StockAllows(items, item, stock) <==> stock > 0)
  {
    match FindLine(items, item.productId)
    case Some(j) => stock >= items[j].qty + 1
    case None => stock >= 1
  }

  /** The new line list of an existing cart after a successful add: the
      existing line's quantity goes up by one (the submitted quantity is
      ignored), otherwise the submitted line is appended. */
  function AddLine(items: seq<CartItem>, item: CartItem): (r: seq<CartItem>)
    requires UniqueProducts(items)
    ensures UniqueProducts(r)
    ensures FindLine(items, item.productId).Some? ==>
      |r| == |items| &&
      forall k :: 0 <= k < |items| ==>
        r[k] == if items[k].productId == item.productId then items[k].(qty := items[k].qty + 1) else items[k]
    ensures FindLine(items, item.productId).None? ==> r == items + [item]
  {
    match FindLine(items, item.productId)
    case Some(j) => items[j := items[j].(qty := items[j].qty + 1)]
    case None => items + [item]
  }

  /** Adding raises the items total by one unit price of the existing line,
      or by the new line's total. */
  lemma AddLineTotal(items: seq<CartItem>, item: CartItem)
    requires UniqueProducts(items)
    ensures FindLine(items, item.productId).Some? ==>
      ItemsTotal(AddLine(items, item)) == ItemsTotal(items) + items[FindLine(items, item.productId).value].priceCents
    ensures FindLine(items, item.productId).None? ==>
      ItemsTotal(AddLine(items, item)) == ItemsTotal(items) + LineTotal(item)
  {
    match FindLine(items, item.productId)
    case Some(j) =>
      ItemsTotalUpdate(items, j, items[j].(qty := items[j].qty + 1));
    case None =>
      ItemsTotalAppend(items, [item]);
      ItemsTotalSingle(item);
  }

  /** Adding keeps every quantity positive when the submitted line has one. */
  lemma AddLineKeepsPositive(items: seq<CartItem>, item: CartItem)
    requires UniqueProducts(items) && PositiveQuantities(items) && item.qty >= 1
    ensures PositiveQuantities(AddLine(items, item))
  {
  }

  /** `items.filter(x => x.productId !== productId)`. */
  function WithoutProduct(items: seq<CartItem>, productId: Id): (r: seq<CartItem>)
    ensures forall k :: 0 <= k < |r| ==> r[k].productId != productId
    ensures |r| <= |items|
    decreases |items|
  {
    if items == [] then []
    else if items[0].productId == productId then WithoutProduct(items[1..], productId)
    else [items[0]] + WithoutProduct(items[1..], productId)
  }

  /** When product ids are unique, the filter removes exactly the one line. */
  lemma {:induction false} WithoutProductRemovesLine(items: seq<CartItem>, j: nat)
    requires UniqueProducts(items) && j < |items|
    ensures WithoutProduct(items, items[j].productId) == items[..j] + items[j + 1..]
    decreases |items|
  {
    var pid := items[j].productId;
    if j == 0 {
      WithoutProductKeepsAll(items[1..], pid);
      assert items[..0] + items[1..] == items[1..];
    } else {
      assert items[0].productId != pid;
      assert UniqueProducts(items[1..]);
      assert items[1..][j - 1] == items[j];
      WithoutProductRemovesLine(items[1..], j - 1);
      assert items[1..][..j - 1] + items[1..][j..] == items[1..j] + items[j + 1..];
      assert [items[0]] + (items[1..j] + items[j + 1..]) == items[..j] + items[j + 1..];
    }
  }

  lemma {:induction false} WithoutProductKeepsAll(items: seq<CartItem>, productId: Id)
    requires forall k :: 0 <= k < |items| ==> items[k].productId != productId
    ensures WithoutProduct(items, productId) == items
    decreases |items|
  {
    if items != [] {
      WithoutProductKeepsAll(items[1..], productId);
      assert [items[0]] + items[1..] == items;
    }
  }

  /** The new line list after a successful remove: a line holding one unit
      is dropped, any other line loses exactly one unit. */
  function RemoveLine(items: seq<CartItem>, productId: Id): (r: seq<CartItem>)
    requires UniqueProducts(items) && FindLine(items, productId).Some?
    ensures UniqueProducts(r)
    ensures var j := FindLine(items, productId).value;
      if items[j].qty == 1 then r == items[..j] + items[j + 1..]
      else r == items[j := items[j].(qty := items[j].qty - 1)]
  {
    var j := FindLine(items, productId).value;
    if items[j].qty == 1 then
      WithoutProductRemovesLine(items, j);
      WithoutProduct(items, productId)
    else
      items[j := items[j].(qty := items[j].qty - 1)]
  }

  /** Removing lowers the items total by exactly one unit price of the line. */
  lemma RemoveLineTotal(items: seq<CartItem>, productId: Id)
    requires UniqueProducts(items) && FindLine(items, productId).Some?
    ensures ItemsTotal(RemoveLine(items, productId)) ==
      ItemsTotal(items) - items[FindLine(items, productId).value].priceCents
  {
    var j := FindLine(items, productId).value;
    var r := RemoveLine(items, productId);
    if items[j].qty == 1 {
      assert r == items[..j] + items[j + 1..];
      ItemsTotalDrop(items, j);
    } else {
      assert r == items[j := items[j].(qty := items[j].qty - 1)];
      ItemsTotalUpdate(items, j, items[j].(qty := items[j].qty - 1));
    }
  }

  /** Removing keeps every remaining quantity positive. */
  lemma RemoveLineKeepsPositive(items: seq<CartItem>, productId: Id)
    requires UniqueProducts(items) && PositiveQuantities(items) && FindLine(items, productId).Some?
    ensures PositiveQuantities(RemoveLine(items, productId))
  {
    var j := FindLine(items, productId).value;
    var r := RemoveLine(items, productId);
    if items[j].qty == 1 {
      forall k | 0 <= k < |r| ensures r[k].qty >= 1 {
        if k < j { assert r[k] == items[k]; } else { assert r[k] == items[k + 1]; }
      }
    }
  }

  /** A cart row: owned by a user id or an anonymous session cart id, with
      its lines and the totals stored with them. */
  datatype Cart = Cart(
    id: Id,
    userId: Option<Id>,
    sessionCartId: string,
    items: seq<CartItem>,
    prices: Prices)

  /** The cart with new lines and totals recomputed from them. */
  function WithItems(c: Cart, items: seq<CartItem>): (r: Cart)
    ensures r.id == c.id && r.userId == c.userId && r.sessionCartId == c.sessionCartId
    ensures r.items == items && r.prices == CalcPrice(items)
  {
    c.(items := items, prices := CalcPrice(items))
  }

  /** Which carts `getMyCart` may resolve: by user id when signed in,
      otherwise by the session cart id. */
  predicate Owns(c: Cart, sessionCartId: string, userId: Option<Id>)
  {
    if userId.Some? then c.userId == userId else c.sessionCartId == sessionCartId
  }

  function FindCart(carts: seq<Cart>, sessionCartId: string, userId: Option<Id>): (r: Option<nat>)
    ensures r.Some? ==> r.value < |carts| && Owns(carts[r.value], sessionCartId, userId)
    ensures r.Some? ==> forall k :: 0 <= k < r.value ==> !Owns(carts[k], sessionCartId, userId)
    ensures r.None? <==> forall k :: 0 <= k < |carts| ==> !Owns(carts[k], sessionCartId, userId)
  {
    FirstWhere(carts, (c: Cart) => Owns(c, sessionCartId, userId))
  }

  /** Exactly when `addItemToCart` succeeds. */
  predicate AddAllowed(carts: seq<Cart>, sessionCartId: string, userId: Option<Id>,
                       item: CartItem, products: map<Id, Product>)
  {
    && sessionCartId != ""
    && item.productId in products
    && match FindCart(carts, sessionCartId, userId)
       case None => true
       case Some(k) => StockAllows(carts[k].items, item, products[item.productId].stock)
  }

  /** The cart table's invariant: ids are unique and below the next fresh
      id, and no cart lists a product twice. */
  ghost predicate ValidTable(carts: seq<Cart>, nextId: Id)
  {
    && (forall k :: 0 <= k < |carts| ==> carts[k].id < nextId && UniqueProducts(carts[k].items))
    && (forall k, l :: 0 <= k < l < |carts| ==> carts[k].id != carts[l].id)
  }

  lemma ValidTableUpdate(carts: seq<Cart>, nextId: Id, k: nat, c: Cart)
    requires ValidTable(carts, nextId) && k < |carts|
    requires c.id == carts[k].id && UniqueProducts(c.items)
    ensures ValidTable(carts[k := c], nextId)
  {
  }

  lemma ValidTableAppend(carts: seq<Cart>, nextId: Id, c: Cart)
    requires ValidTable(carts, nextId)
    requires c.id == nextId && UniqueProducts(c.items)
    ensures ValidTable(carts + [c], nextId + 1)
  {
  }

  class CartStore {
    /** The cart table, in storage order (`findFirst` takes the first match). */
    var carts: seq<Cart>
    /** Where fresh cart ids come from. */
    var nextId: Id

    ghost predicate Valid()
      reads this
    {
      ValidTable(carts, nextId)
    }

    constructor ()
      ensures Valid() && carts == []
    {
      carts := [];
      nextId := 0;
    }

    /** `getMyCart`: the caller's cart with totals recomputed from its
        lines, nothing when there is none, and an error when the request
        carries no session cart cookie. */
    function GetMyCart(sessionCartId: string, auth: Option<Session>): (r: Result<Option<Cart>>)
      reads this
      ensures r.Err? <==> sessionCartId == ""
      ensures r.Err? ==> r.message == "Cart Session not found"
      ensures r.Ok? ==> (r.value.Some? <==> FindCart(carts, sessionCartId, SessionUserId(auth)).Some?)
      ensures r.Ok? && r.value.Some? ==>
        var c := r.value.value;
        var k := FindCart(carts, sessionCartId, SessionUserId(auth)).value;
        && Owns(c, sessionCartId, SessionUserId(auth))
        && c.prices == CalcPrice(c.items)
        && c == carts[k].(prices := CalcPrice(carts[k].items))
      ensures r.Ok? && r.value.None? ==>
        forall k :: 0 <= k < |carts| ==> !Owns(carts[k], sessionCartId, SessionUserId(auth))
    {
      if sessionCartId == "" then Err("Cart Session not found")
      else match FindCart(carts, sessionCartId, SessionUserId(auth))
        case None => Ok(None)
        case Some(k) => Ok(Some(WithItems(carts[k], carts[k].items)))
    }

    /** `addItemToCart`. */
    method AddItemToCart(sessionCartId: string, auth: Option<Session>, item: CartItem, products: ProductStore)
      returns (r: ActionResult)
      requires Valid()
      modifies this
      ensures Valid()
      ensures r.success <==> AddAllowed(old(carts), sessionCartId, SessionUserId(auth), item, products.rows)
      ensures !r.success ==> carts == old(carts) && nextId == old(nextId)
      ensures sessionCartId == "" ==> r == Fail("Cart Session not found")
      ensures sessionCartId != "" && item.productId !in products.rows ==> r == Fail("Product not found")
      ensures sessionCartId != "" && item.productId in products.rows && !r.success ==> r == Fail("Product out of stock")
      ensures r.success ==>
        match FindCart(old(carts), sessionCartId, SessionUserId(auth))
        case None =>
          && carts == old(carts) + [Cart(old(nextId), SessionUserId(auth), sessionCartId, [item], CalcPrice([item]))]
          && nextId == old(nextId) + 1
        case Some(k) =>
          && carts == old(carts)[k := WithItems(old(carts)[k], AddLine(old(carts)[k].items, item))]
          && nextId == old(nextId)
    {
      if sessionCartId == "" {
        return Fail("Cart Session not found");
      }
      var userId := SessionUserId(auth);
      var found := FindCart(carts, sessionCartId, userId);
      if item.productId !in products.rows {
        return Fail("Product not found");
      }
      var product := products.rows[item.productId];
      if found.None? {
        ValidTableAppend(carts, nextId, Cart(nextId, userId, sessionCartId, [item], CalcPrice([item])));
        carts := carts + [Cart(nextId, userId, sessionCartId, [item], CalcPrice([item]))];
        nextId := nextId + 1;
        return ActionResult(true, product.name + " added to cart");
      }
      var k := found.value;
      var items := carts[k].items;
      var existing := FindLine(items, item.productId);
      if existing.Some? {
        var j := existing.value;
        if product.stock < items[j].qty + 1 {
          return Fail("Product out of stock");
        }
        items := items[j := items[j].(qty := items[j].qty + 1)];
      } else {
        if product.stock < 1 {
          return Fail("Product out of stock");
        }
        items := items + [item];
      }
      assert items == AddLine(carts[k].items, item);
      ValidTableUpdate(carts, nextId, k, WithItems(carts[k], items));
      carts := carts[k := WithItems(carts[k], items)];
      r := ActionResult(true, product.name + (if existing.Some? then " updated" else " added") + " to cart");
    }

    /** `removeItemFromCart`. */
    method RemoveItemFromCart(sessionCartId: string, auth: Option<Session>, productId: Id, products: ProductStore)
      returns (r: ActionResult)
      requires Valid()
      modifies this
      ensures Valid() && nextId == old(nextId)
      ensures !r.success ==> carts == old(carts)
      ensures sessionCartId == "" ==> r == Fail("Cart Session not found")
      ensures sessionCartId != "" && productId !in products.rows ==> r == Fail("Product not found")
      ensures (sessionCartId != "" && productId in products.rows &&
               FindCart(old(carts), sessionCartId, SessionUserId(auth)).None?) ==> r == Fail("Cart not found")
      ensures sessionCartId != "" && productId in products.rows ==>
        match FindCart(old(carts), sessionCartId, SessionUserId(auth))
        case None => true
        case Some(k) =>
          if FindLine(old(carts)[k].items, productId).None? then r == Fail("Item not found in cart")
          else r.success && carts == old(carts)[k := WithItems(old(carts)[k], RemoveLine(old(carts)[k].items, productId))]
    {
      if sessionCartId == "" {
        return Fail("Cart Session not found");
      }
      if productId !in products.rows {
        return Fail("Product not found");
      }
      var product := products.rows[productId];
      var found := FindCart(carts, sessionCartId, SessionUserId(auth));
      if found.None? {
        return Fail("Cart not found");
      }
      var k := found.value;
      var items := carts[k].items;
      var existing := FindLine(items, productId);
      if existing.None? {
        return Fail("Item not found in cart");
      }
      var j := existing.value;
      if items[j].qty == 1 {
        WithoutProductRemovesLine(items, j);
        items := WithoutProduct(items, items[j].productId);
      } else {
        items := items[j := items[j].(qty := items[j].qty - 1)];
      }
      assert items == RemoveLine(carts[k].items, productId);
      ValidTableUpdate(carts, nextId, k, WithItems(carts[k], items));
      carts := carts[k := WithItems(carts[k], items)];
      r := ActionResult(true, product.name + " removed from cart");
    }

    /** On sign-in, the anonymous cart of this session (the first row with
        that session cart id) is handed to the user; nothing else changes. */
    method AssignSessionCart(sessionCartId: string, userId: Id)
      requires Valid()
      modifies this
      ensures Valid() && nextId == old(nextId)
      ensures match FirstWhere(old(carts), (c: Cart) => c.sessionCartId == sessionCartId)
        case None => carts == old(carts)
        case Some(k) => carts == old(carts)[k := old(carts)[k].(userId := Some(userId))]
    {
      var found := FirstWhere(carts, (c: Cart) => c.sessionCartId == sessionCartId);
      if found.Some? {
        carts := carts[found.value := carts[found.value].(userId := Some(userId))];
      }
    }

    /** The checkout's cart reset: no lines and all four stored totals 0. */
    method ClearCart(k: nat)
      requires Valid() && k < |carts|
      modifies this
      ensures Valid() && nextId == old(nextId)
      ensures carts == old(carts)[k := old(carts)[k].(items := [], prices := Prices(0, 0, 0, 0))]
    {
      carts := carts[k := carts[k].(items := [], prices := Prices(0, 0, 0, 0))];
    }
  }

  /** A cleared cart stores zero totals, but every read recomputes them: an
      empty cart reads as 10.00 shipping and 10.00 total. */
  lemma EmptyCartReadsShippingFee()
    ensures CalcPrice([]) == Prices(0, ShippingFee, 0, ShippingFee)
  {
  }
}
