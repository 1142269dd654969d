/** Checkout and orders (orderController.ts over the Order schema).  Checkout turns the
    caller's cart into an order whose lines copy each product's price and name at that
    moment, totals price times quantity, starts both status fields at pending, and then
    empties the cart.  Product details come from the product table (`populate`). */
module Orders {
  import opened Common

  /** The messages these handlers answer with. */
  const CartEmpty := "Cart is empty"
  const OrderNotFound := "Order not found"
  const MissingFields := "Shipping address and payment method are required"
  const BadStatus := "Valid status is required"
  import opened Cart
  import Products

  datatype OrderStatus = Pending | Processing | Shipped | Delivered | Cancelled

  datatype PaymentStatus = PaymentPending | Paid | PaymentFailed

  /** The shipping address as sent; the schema requires all but the postal code. */
  datatype ShippingAddress = ShippingAddress(
    fullName: Option<string>,
    phone: Option<string>,
    email: Option<string>,
    address: Option<string>,
    city: Option<string>,
    postalCode: Option<string>)

  /** An order line: the product and quantity, with the unit price and name copied at checkout. */
  datatype OrderItem = OrderItem(product: Id, quantity: int, price: int, name: string)

  datatype Order = Order(
    userId: Id,
    items: seq<OrderItem>,
    totalAmount: int,
    status: OrderStatus,
    shippingAddress: ShippingAddress,
    paymentMethod: string,
    paymentStatus: PaymentStatus)

  /** The stored spelling of each status. */
  function StatusName(s: OrderStatus): string {
    match s
    case Pending => "pending"
    case Processing => "processing"
    case Shipped => "shipped"
    case Delivered => "delivered"
    case Cancelled => "cancelled"
  }

  /** The status check of updateOrderStatus:
      `!status || !['pending', 'processing', 'shipped', 'delivered', 'cancelled'].includes(status)`. */
  function ParseStatus(s: Option<string>): (r: Option<OrderStatus>)
    ensures r.Some? ==> s.Some? && StatusName(r.value) == s.value
    ensures r.None? ==> s.None? || forall st :: StatusName(st) != s.value
  {
    if s.None? then None
    else if s.value == "pending" then Some(Pending)
    else if s.value == "processing" then Some(Processing)
    else if s.value == "shipped" then Some(Shipped)
    else if s.value == "delivered" then Some(Delivered)
    else if s.value == "cancelled" then Some(Cancelled)
    else None
  }

  /** The schema's required address fields: fullName, phone, email, address and city. */
  predicate AddressComplete(a: ShippingAddress) {
    Truthy(a.fullName) && Truthy(a.phone) && Truthy(a.email) && Truthy(a.address) && Truthy(a.city)
  }

  /** What the Order schema checks on save besides the address: every line has a
      quantity of at least 1 and a name. */
  predicate ItemsPassSchema(items: seq<OrderItem>) {
    forall i :: 0 <= i < |items| ==> items[i].quantity >= 1 && items[i].name != ""
  }

  /** The order lines of a checkout: one per cart line, in order, copying the product id and
      quantity and the product's current price and name.  `None` when a line's product is no
      longer in the catalog (the populated product is null and reading its price throws). */
  function Snapshot(lines: seq<CartItem>, catalog: map<Id, Products.Product>): (r: Option<seq<OrderItem>>)
    ensures r.Some? <==> forall i :: 0 <= i < |lines| ==> lines[i].product in catalog
    ensures r.Some? ==> |r.value| == |lines|
    ensures r.Some? ==> forall i :: 0 <= i < |lines| ==>
              r.value[i] == OrderItem(lines[i].product, lines[i].quantity,
                                      catalog[lines[i].product].price, catalog[lines[i].product].name)
  {
    if lines == [] then Some([])
    else if lines[0].product !in catalog then None
    else
      match Snapshot(lines[1..], catalog)
      case None => None
      case Some(rest) =>
        var p := catalog[lines[0].product];
        Some([OrderItem(lines[0].product, lines[0].quantity, p.price, p.name)] + rest)
  }

  /** The sum over lines of unit price times quantity. */
  function Total(items: seq<OrderItem>): int {
    if items == [] then 0 else Total(items[..|items| - 1]) + items[|items| - 1].price * items[|items| - 1].quantity
  }

  /** With no negative prices and no quantity below 1, the total is not negative and is at
      least the price of any single line. */
  lemma {:induction false} TotalBounds(items: seq<OrderItem>)
    requires forall i :: 0 <= i < |items| ==> items[i].price >= 0 && items[i].quantity >= 1
    ensures Total(items) >= 0
    ensures forall i :: 0 <= i < |items| ==> Total(items) >= items[i].price
  {
    if items != [] {
      var init := items[..|items| - 1];
      var last := items[|items| - 1];
      TotalBounds(init);
      assert last.price * last.quantity >= last.price;
      forall i | 0 <= i < |items| ensures Total(items) >= items[i].price {
        if i < |items| - 1 { assert items[i] == init[i]; }
      }
    }
  }

  /** A cart built from valid lines gives order lines that pass the quantity rule of the schema. */
  lemma SnapshotQuantities(lines: seq<CartItem>, catalog: map<Id, Products.Product>)
    requires ValidItems(lines) && Snapshot(lines, catalog).Some?
    ensures forall i :: 0 <= i < |lines| ==> Snapshot(lines, catalog).value[i].quantity >= 1
  {
  }

  /** The `cart.items.map(...)` of createOrder with its running `totalAmount +=`. */
  method PrepareOrderItems(lines: seq<CartItem>, catalog: map<Id, Products.Product>)
    returns (r: Option<(seq<OrderItem>, int)>)
    ensures r.Some? <==> Snapshot(lines, catalog).Some?
    ensures r.Some? ==> r.value.0 == Snapshot(lines, catalog).value && r.value.1 == Total(r.value.0)
  {
    var items: seq<OrderItem> := [];
    var totalAmount := 0;
    var i := 0;
    while i < |lines|
      invariant 0 <= i <= |lines| && |items| == i
      invariant forall j :: 0 <= j < i ==> lines[j].product in catalog
      invariant forall j :: 0 <= j < i ==>
                  items[j] == OrderItem(lines[j].product, lines[j].quantity,
                                        catalog[lines[j].product].price, catalog[lines[j].product].name)
      invariant totalAmount == Total(items)
    {
      var line := lines[i];
      if line.product !in catalog {
        return None;
      }
      var product := catalog[line.product];
      var itemTotal := product.price * line.quantity;
      totalAmount := totalAmount + itemTotal;
      var next := items + [OrderItem(line.product, line.quantity, product.price, product.name)];
      assert next[..|next| - 1] == items;
      items := next;
      i := i + 1;
    }
    r := Some((items, totalAmount));
  }

  /** The order collection. */
  class OrderStore {
    var orders: map<Id, Order>

    constructor ()
      ensures orders == map[]
    {
      orders := map[];
    }

    /** createOrder.  400 when the address or payment method is missing (before the cart is
        read), 400 CartEmpty for a missing or empty cart, 500 when a line's product is gone
        or the address lacks a required field; in all those cases nothing is stored and the cart
        is untouched.  Otherwise the order is stored under the fresh id and the cart emptied. */
    method CreateOrder(carts: CartStore, user: Id, shippingAddress: Option<ShippingAddress>,
                       paymentMethod: Option<string>, catalog: map<Id, Products.Product>, freshId: Id)
      returns (r: Result<Order>)
      requires carts.Valid() && freshId !in orders
      modifies this, carts
      ensures carts.Valid()
      ensures r.Err? ==> orders == old(orders) && carts.carts == old(carts.carts)
      ensures shippingAddress.None? || !Truthy(paymentMethod) ==>
                r == Err(400, MissingFields)
      ensures shippingAddress.Some? && Truthy(paymentMethod)
              && (user !in old(carts.carts) || old(carts.carts)[user] == []) ==>
                r == Err(400, CartEmpty)
      ensures r.Ok? ==>
                && user in old(carts.carts) && old(carts.carts)[user] != []
                && var lines := old(carts.carts)[user];
                && Snapshot(lines, catalog).Some?
                && r.value.userId == user
                && r.value.items == Snapshot(lines, catalog).value
                && r.value.totalAmount == Total(r.value.items)
                && r.value.status == Pending && r.value.paymentStatus == PaymentPending
                && r.value.shippingAddress == shippingAddress.value
                && r.value.paymentMethod == paymentMethod.value
                && orders == old(orders)[freshId := r.value]
                && carts.carts == old(carts.carts)[user := []]
      ensures (&& shippingAddress.Some? && Truthy(paymentMethod)
               && user in old(carts.carts) && old(carts.carts)[user] != []
               && !(&& Snapshot(old(carts.carts)[user], catalog).Some?
                    && AddressComplete(shippingAddress.value)
                    && ItemsPassSchema(Snapshot(old(carts.carts)[user], catalog).value))) ==>
                r == Err(500, ServerError)
      ensures r.Ok? <==>
                && shippingAddress.Some? && Truthy(paymentMethod)
                && user in old(carts.carts) && old(carts.carts)[user] != []
                && Snapshot(old(carts.carts)[user], catalog).Some?
                && AddressComplete(shippingAddress.value)
                && ItemsPassSchema(Snapshot(old(carts.carts)[user], catalog).value)
    {
      if shippingAddress.None? || !Truthy(paymentMethod) {
        return Err(400, MissingFields);
      }
      if user !in carts.carts || |carts.carts[user]| == 0 {
        return Err(400, CartEmpty);
      }
      var prepared := PrepareOrderItems(carts.carts[user], catalog);
      if prepared.None? {
        return Err(500, ServerError);
      }
      var (items, totalAmount) := prepared.value;
      var order := Order(user, items, totalAmount, Pending, shippingAddress.value, paymentMethod.value, PaymentPending);
      if !AddressComplete(order.shippingAddress) || !ItemsPassSchema(order.items) {
        return Err(500, ServerError);
      }
      orders := orders[freshId := order];
      carts.carts := carts.carts[user := []];
      r := Ok(order);
    }

    /** getOrders: exactly the caller's orders. */
    function OrdersOf(user: Id): (r: map<Id, Order>)
      reads this
      ensures forall id :: id in r <==> id in orders && orders[id].userId == user
      ensures forall id :: id in r ==> r[id] == orders[id]
    {
      map id | id in orders && orders[id].userId == user :: orders[id]
    }

    /** getOrder: found only when both the id and the owner match the caller; otherwise 404. */
    function GetOrder(user: Id, id: Id): (r: Result<Order>)
      reads this
      ensures r.Ok? <==> id in orders && orders[id].userId == user
      ensures r.Ok? ==> r.value == orders[id]
      ensures r.Err? ==> r == Err(404, OrderNotFound)
    {
      if id in orders && orders[id].userId == user then Ok(orders[id]) else Err(404, OrderNotFound)
    }

    /** updateOrderStatus: 400 for a status outside the five values (checked first), 404 for
        an unknown id; otherwise only that order's status changes. */
    method UpdateOrderStatus(id: Id, status: Option<string>) returns (r: Result<Order>)
      modifies this
      ensures ParseStatus(status).None? ==> r == Err(400, BadStatus) && orders == old(orders)
      ensures ParseStatus(status).Some? && id !in old(orders) ==>
                r == Err(404, OrderNotFound) && orders == old(orders)
      ensures ParseStatus(status).Some? && id in old(orders) ==>
                && orders == old(orders)[id := old(orders)[id].(status := ParseStatus(status).value)]
                && r == Ok(orders[id])
                && StatusName(orders[id].status) == status.value
    {
      var parsed := ParseStatus(status);
      if parsed.None? {
        return Err(400, BadStatus);
      }
      if id !in orders {
        return Err(404, OrderNotFound);
      }
      orders := orders[id := orders[id].(status := parsed.value)];
      r := Ok(orders[id]);
    }
  }

  /** The end-to-end checkout scenario: adding one unit and then two units of a product
      leaves one line of three; checking out charges three times the price and empties
      the cart. */
  method CheckoutScenario(product: Id, price: int, name: string, address: ShippingAddress)
    requires product != "" && name != "" && AddressComplete(address)
  {
    var carts := new CartStore();
    var store := new OrderStore();
    var catalog := map[product := Products.Product(name, "", price, None, "cat", None, None, 0, "seller", "town", "owner")];
    var a := carts.AddToCart("alice", Some(product), Some(1));
    assert carts.carts["alice"] == [CartItem(product, 1)];
    var b := carts.AddToCart("alice", Some(product), Some(2));
    assert IndexOf([CartItem(product, 1)], product) == 0;
    assert carts.carts["alice"] == AddLine([CartItem(product, 1)], product, 2) == [CartItem(product, 3)];
    var items := [OrderItem(product, 3, price, name)];
    var snap := Snapshot([CartItem(product, 3)], catalog);
    assert snap.Some? && |snap.value| == 1 && snap.value[0] == items[0];
    assert snap.value == items;
    assert ItemsPassSchema(items);
    var o := store.CreateOrder(carts, "alice", Some(address), Some("card"), catalog, "order-1");
    assert o.Ok?;
    assert o.value.totalAmount == 3 * price;
    assert carts.carts["alice"] == [];
  }
}
