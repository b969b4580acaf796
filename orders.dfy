/** Checkout (`createOrder`) and order lookup (`getOrderById`) of
    `lib/actions/order.action.ts`: an ordered chain of preconditions, then
    one all-or-nothing step that creates the order, snapshots every cart
    line into an order item and empties the cart. */
module Orders {
  import opened Common
  import opened Cart
  import opened Users

  datatype Order = Order(
    id: Id,
    userId: Id,
    shippingAddress: Address,
    paymentMethod: string,
    prices: Prices)

  /** An order line: the cart line's fields copied verbatim plus the order
      it belongs to. */
  datatype OrderItem = OrderItem(
    orderId: Id,
    productId: Id,
    name: string,
    slug: string,
    image: string,
    priceCents: nat,
    qty: int)

  function SnapshotLine(line: CartItem, orderId: Id): (r: OrderItem)
    ensures r.orderId == orderId
    ensures r.productId == line.productId && r.name == line.name && r.slug == line.slug
    ensures r.image == line.image && r.priceCents == line.priceCents && r.qty == line.qty
  {
    OrderItem(orderId, line.productId, line.name, line.slug, line.image, line.priceCents, line.qty)
  }

  /** One order item per cart line, in cart order. */
  function SnapshotLines(lines: seq<CartItem>, orderId: Id): (r: seq<OrderItem>)
    ensures |r| == |lines|
    ensures forall i :: 0 <= i < |lines| ==> r[i] == SnapshotLine(lines[i], orderId)
  {
    seq(|lines|, i requires 0 <= i < |lines| => SnapshotLine(lines[i], orderId))
  }

  function OrderItemsTotal(items: seq<OrderItem>): int
    decreases |items|
  {
    if items == [] then 0
    else OrderItemsTotal(items[..|items| - 1]) + items[|items| - 1].priceCents * items[|items| - 1].qty
  }

  /** The order items of a checkout add up to the order's items price. */
  lemma {:induction false} SnapshotTotal(lines: seq<CartItem>, orderId: Id)
    ensures OrderItemsTotal(SnapshotLines(lines, orderId)) == ItemsTotal(lines)
    decreases |lines|
  {
    if lines != [] {
      var init := lines[..|lines| - 1];
      assert SnapshotLines(lines, orderId)[..|lines| - 1] == SnapshotLines(init, orderId);
      SnapshotTotal(init, orderId);
    }
  }

  /** What `createOrder` returns when it returns something. */
  datatype CheckoutResult = CheckoutResult(success: bool, message: string, redirectTo: Option<string>)

  /** The catch block of `createOrder`: a redirect signal becomes a failure
      result; any other error makes the action return nothing. */
  function CatchCheckoutError(e: Thrown): (r: Option<CheckoutResult>)
    ensures r.Some? <==> e.Redirect?
    ensures r.Some? ==> !r.value.success && r.value.redirectTo.None?
  {
    match e
    case Redirect => Some(CheckoutResult(false, "NEXT_REDIRECT", None))
    case Other(_) => None
  }

  /** How the precondition chain of `createOrder` ends. */
  datatype Gate =
    | Aborted(error: Thrown)
    | Refused(message: string, redirectTo: string)
    | Proceed(cartIndex: nat, user: User)

  /** The precondition chain, first failure wins: no session, no session
      cart cookie (`getMyCart` throws), no user id, no user row (these four
      throw), then an empty or missing cart, no address, no payment method
      (these three return a redirect hint). */
  function CheckoutGate(auth: Option<Session>, sessionCartId: string, carts: seq<Cart>, users: seq<User>): (g: Gate)
    ensures auth.None? ==> g == Aborted(Other("User not authenticated"))
    ensures auth.Some? && sessionCartId == "" ==> g == Aborted(Other("Cart Session not found"))
    ensures g.Aborted? ==> g.error.Other?
    ensures g.Refused? ==> auth.Some? && auth.value.userId.Some?
    ensures g.Refused? ==> exists k :: 0 <= k < |users| && Some(users[k].id) == SessionUserId(auth)
    ensures g.Refused? && g.redirectTo == "/cart" ==>
      match FindCart(carts, sessionCartId, SessionUserId(auth))
      case None => true
      case Some(k) => carts[k].items == []
    ensures g.Refused? ==> g.redirectTo in {"/cart", "/shipping-address", "/payment-method"}
    ensures g.Refused? && g.redirectTo == "/payment-method" ==> g.message == "No payment method"
    ensures auth.Some? && sessionCartId != "" && auth.value.userId.None? ==> g == Aborted(Other("User not found"))
    ensures auth.Some? && sessionCartId != "" && auth.value.userId.Some? ==>
      match FindUser(users, auth.value.userId.value)
      case None => g == Aborted(Other("User not found"))
      case Some(ui) =>
        var found := FindCart(carts, sessionCartId, auth.value.userId);
        var cartEmpty := found.None? || carts[found.value].items == [];
        && (cartEmpty ==> g == Refused(" Your cart is empty", "/cart"))
        && (!cartEmpty && users[ui].address.None? ==> g == Refused("No shipping address", "/shipping-address"))
        && (!cartEmpty && users[ui].address.Some? && users[ui].paymentMethod == "" ==>
              g == Refused("No payment method", "/payment-method"))
    ensures g.Proceed? ==>
      && sessionCartId != ""
      && SessionUserId(auth) == Some(g.user.id)
      && g.user in users
      && FindCart(carts, sessionCartId, SessionUserId(auth)) == Some(g.cartIndex)
      && g.cartIndex < |carts| && carts[g.cartIndex].items != []
      && g.user.address.Some? && g.user.paymentMethod != ""
  {
    if auth.None? then Aborted(Other("User not authenticated"))
    else if sessionCartId == "" then Aborted(Other("Cart Session not found"))
    else match auth.value.userId
      case None => Aborted(Other("User not found"))
      case Some(uid) =>
        match FindUser(users, uid)
        case None => Aborted(Other("User not found"))
        case Some(ui) =>
          var user := users[ui];
          var found := FindCart(carts, sessionCartId, Some(uid));
          if found.None? || carts[found.value].items == [] then Refused(" Your cart is empty", "/cart")
          else if user.address.None? then Refused("No shipping address", "/shipping-address")
          else if user.paymentMethod == "" then Refused("No payment method", "/payment-method")
          else Proceed(found.value, user)
  }

  /** A user who is signed in, has a cart with lines and has saved an
      address and a payment method passes the whole chain. */
  lemma ReadyCustomerProceeds(auth: Option<Session>, sessionCartId: string, carts: seq<Cart>, users: seq<User>, k: nat, ui: nat)
    requires sessionCartId != "" && ui < |users| && auth == Some(Session(Some(users[ui].id)))
    requires forall l :: 0 <= l < ui ==> users[l].id != users[ui].id
    requires FindCart(carts, sessionCartId, Some(users[ui].id)) == Some(k) && carts[k].items != []
    requires users[ui].address.Some? && users[ui].paymentMethod != ""
    ensures CheckoutGate(auth, sessionCartId, carts, users) == Proceed(k, users[ui])
  {
    assert FindUser(users, users[ui].id) == Some(ui);
  }

  /** An order with its items, as `getOrderById` returns it. */
  datatype OrderView = OrderView(order: Order, orderItems: seq<OrderItem>)

  /** The order items belonging to one order, in table order. */
  function ItemsOf(items: seq<OrderItem>, orderId: Id): (r: seq<OrderItem>)
    ensures forall i :: 0 <= i < |r| ==> r[i] in items && r[i].orderId == orderId
    ensures forall it :: it in items && it.orderId == orderId ==> it in r
    decreases |items|
  {
    if items == [] then []
    else if items[0].orderId == orderId then [items[0]] + ItemsOf(items[1..], orderId)
    else ItemsOf(items[1..], orderId)
  }

  /** Order ids are unique and below the next fresh id, and every order
      item belongs to an existing order. */
  ghost predicate ValidTables(orders: seq<Order>, items: seq<OrderItem>, nextId: Id)
  {
    && (forall k :: 0 <= k < |orders| ==> orders[k].id < nextId)
    && (forall k, l :: 0 <= k < l < |orders| ==> orders[k].id != orders[l].id)
    && (forall i :: 0 <= i < |items| ==> HasOrder(orders, items[i].orderId))
  }

  ghost predicate HasOrder(orders: seq<Order>, id: Id)
  {
    exists k :: 0 <= k < |orders| && orders[k].id == id
  }

  lemma {:induction false} ValidTablesAfterInsert(orders: seq<Order>, items: seq<OrderItem>, nextId: Id,
                                                   order: Order, newItems: seq<OrderItem>)
    requires ValidTables(orders, items, nextId) && order.id == nextId
    requires forall i :: 0 <= i < |newItems| ==> newItems[i].orderId == order.id
    ensures ValidTables(orders + [order], items + newItems, nextId + 1)
  {
    var orders' := orders + [order];
    forall i | 0 <= i < |items + newItems| ensures HasOrder(orders', (items + newItems)[i].orderId) {
      if i < |items| {
        var k :| 0 <= k < |orders| && orders[k].id == items[i].orderId;
        assert orders'[k].id == items[i].orderId;
      } else {
        assert orders'[|orders|].id == (items + newItems)[i].orderId;
      }
    }
  }

  class OrderStore {
    var orders: seq<Order>
    var items: seq<OrderItem>
    var nextId: Id

    ghost predicate Valid()
      reads this
    {
      ValidTables(orders, items, nextId)
    }

    constructor ()
      ensures Valid() && orders == [] && items == []
    {
      orders, items, nextId := [], [], 0;
    }

    /** The write half of the checkout transaction: the order row and its
        items become visible together. */
    method Insert(order: Order, newItems: seq<OrderItem>)
      requires Valid() && order.id == nextId
      requires forall i :: 0 <= i < |newItems| ==> newItems[i].orderId == order.id
      modifies this
      ensures Valid() && nextId == old(nextId) + 1
      ensures orders == old(orders) + [order] && items == old(items) + newItems
    {
      ValidTablesAfterInsert(orders, items, nextId, order, newItems);
      orders, items, nextId := orders + [order], items + newItems, nextId + 1;
    }

    /** `getOrderById`: requires a session (but not ownership of the order);
        an unknown id is an error. */
    function GetOrderById(auth: Option<Session>, orderId: Id): (r: Result<OrderView>)
      reads this
      ensures auth.None? ==> r == Err("User not authenticated")
      ensures auth.Some? ==> (r.Err? <==> forall k :: 0 <= k < |orders| ==> orders[k].id != orderId)
      ensures auth.Some? && r.Err? ==> r.message == "Order not found"
      ensures r.Ok? ==> r.value.order.id == orderId && r.value.order in orders
      ensures r.Ok? ==> forall it :: it in r.value.orderItems <==> it in items && it.orderId == orderId
    {
      if auth.None? then Err("User not authenticated")
      else match FirstWhere(orders, (o: Order) => o.id == orderId)
        case None => Err("Order not found")
        case Some(k) => Ok(OrderView(orders[k], ItemsOf(items, orderId)))
    }
  }

  /** `createOrder`. `committed` says whether the database carried out the
      transaction; when it did not, nothing is written and, the error not
      being a redirect, the action returns nothing. */
  method CreateOrder(auth: Option<Session>, sessionCartId: string, carts: CartStore, users: UserStore,
                     orders: OrderStore, committed: bool)
    returns (r: Option<CheckoutResult>)
    requires carts.Valid() && orders.Valid()
    modifies carts, orders
    ensures carts.Valid() && orders.Valid() && carts.nextId == old(carts.nextId)
    ensures match CheckoutGate(auth, sessionCartId, old(carts.carts), users.users)
      case Aborted(e) =>
        r == CatchCheckoutError(e) && carts.carts == old(carts.carts) && orders.orders == old(orders.orders)
        && orders.items == old(orders.items) && orders.nextId == old(orders.nextId)
      case Refused(m, path) =>
        r == Some(CheckoutResult(false, m, Some(path))) && carts.carts == old(carts.carts)
        && orders.orders == old(orders.orders) && orders.items == old(orders.items)
        && orders.nextId == old(orders.nextId)
      case Proceed(k, user) =>
        if !committed then
          r.None? && carts.carts == old(carts.carts) && orders.orders == old(orders.orders)
          && orders.items == old(orders.items) && orders.nextId == old(orders.nextId)
        else
          var id := old(orders.nextId);
          var lines := old(carts.carts)[k].items;
          && r == Some(CheckoutResult(true, " Order created", Some("order/" + NatToString(id))))
          && orders.nextId == id + 1
          && orders.orders == old(orders.orders) + [Order(id, user.id, user.address.value, user.paymentMethod, CalcPrice(lines))]
          && orders.items == old(orders.items) + SnapshotLines(lines, id)
          && carts.carts == old(carts.carts)[k := old(carts.carts)[k].(items := [], prices := Prices(0, 0, 0, 0))]
  {
    var gate := CheckoutGate(auth, sessionCartId, carts.carts, users.users);
    match gate {
      case Aborted(e) =>
        return CatchCheckoutError(e);
      case Refused(m, path) =>
        return Some(CheckoutResult(false, m, Some(path)));
      case Proceed(k, user) =>
        // The totals come from the cart as `getMyCart` returns it: recomputed.
        var lines := carts.carts[k].items;
        var id := orders.nextId;
        var order := Order(id, user.id, user.address.value, user.paymentMethod, CalcPrice(lines));
        var created: seq<OrderItem> := [];
        for i := 0 to |lines|
          invariant created == SnapshotLines(lines[..i], id)
        {
          created := created + [SnapshotLine(lines[i], id)];
        }
        assert lines[..|lines|] == lines;
        if !committed {
          return None;
        }
        orders.Insert(order, created);
        carts.ClearCart(k);
        r := Some(CheckoutResult(true, " Order created", Some("order/" + NatToString(id))));
    }
  }
}
