/** The per-user shopping cart (cartController.ts over the Cart schema).
    A cart is an ordered list of lines `{product, quantity}`; lines have no
    identifier of their own and are found by product id.  The store maps each
    user id to that user's line list, so a user has at most one cart. */
module Cart {
  import opened Common

  datatype CartItem = CartItem(product: Id, quantity: int)

  /** The line schema: a required product reference and a required quantity of at least 1. */
  predicate ValidLine(line: CartItem) {
    line.product != "" && line.quantity >= 1
  }

  /** At most one line per product. */
  ghost predicate UniqueProducts(items: seq<CartItem>) {
    forall i, j :: 0 <= i < j < |items| ==> items[i].product != items[j].product
  }

  ghost predicate ValidItems(items: seq<CartItem>) {
    (forall i :: 0 <= i < |items| ==> ValidLine(items[i])) && UniqueProducts(items)
  }

  /** `items.findIndex(item => item.product.toString() === p)`: the first line for `p`, or -1. */
  function IndexOf(items: seq<CartItem>, p: Id): (k: int)
    ensures -1 <= k < |items|
    ensures k == -1 <==> (forall i :: 0 <= i < |items| ==> items[i].product != p)
    ensures 0 <= k ==> items[k].product == p && (forall i :: 0 <= i < k ==> items[i].product != p)
  {
    if |items| == 0 then -1
    else if items[0].product == p then 0
    else
      var k := IndexOf(items[1..], p);
      if k == -1 then -1 else k + 1
  }

  /** The `findIndex` scan, as the loop it runs. */
  method FindLine(items: seq<CartItem>, p: Id) returns (k: int)
    ensures k == IndexOf(items, p)
  {
    k := 0;
    while k < |items| && items[k].product != p
      invariant 0 <= k <= |items|
      invariant forall i :: 0 <= i < k ==> items[i].product != p
    {
      k := k + 1;
    }
    if k == |items| {
      k := -1;
    }
  }

  /** What one line contributes to the quantity held of `p`. */
  function Contribution(line: CartItem, p: Id): int {
    if line.product == p then line.quantity else 0
  }

  /** The cart seen as a bag of products: the total quantity held of `p`. */
  function QuantityOf(items: seq<CartItem>, p: Id): int {
    if items == [] then 0 else Contribution(items[0], p) + QuantityOf(items[1..], p)
  }

  /** The number of lines for `p`. */
  function LinesFor(items: seq<CartItem>, p: Id): nat {
    if items == [] then 0 else (if items[0].product == p then 1 else 0) + LinesFor(items[1..], p)
  }

  /** addToCart on an existing cart: merge into the product's line, or append a new one. */
  function AddLine(items: seq<CartItem>, p: Id, q: int): seq<CartItem> {
    var k := IndexOf(items, p);
    if k >= 0 then items[k := items[k].(quantity := items[k].quantity + q)]
    else items + [CartItem(p, q)]
  }

  /** updateCartItem on a line that exists: replace its quantity. */
  function SetLine(items: seq<CartItem>, k: nat, q: int): seq<CartItem>
    requires k < |items|
  {
    items[k := items[k].(quantity := q)]
  }

  /** removeFromCart: `items.filter(item => item.product.toString() !== p)`. */
  function RemoveProduct(items: seq<CartItem>, p: Id): (r: seq<CartItem>)
    ensures forall x :: x in r <==> x in items && x.product != p
  {
    if items == [] then []
    else (if items[0].product == p then [] else [items[0]]) + RemoveProduct(items[1..], p)
  }

  /** `r` embeds into `s` in order. */
  ghost predicate IsSubsequence(r: seq<CartItem>, s: seq<CartItem>)
    decreases |s|
  {
    r == [] || (s != [] && (if r[0] == s[0] then IsSubsequence(r[1..], s[1..]) else IsSubsequence(r, s[1..])))
  }

  // ---------------------------------------------------------------------------
  // The bag view under each edit

  lemma {:induction false} QuantityAbsent(items: seq<CartItem>, p: Id)
    requires forall i :: 0 <= i < |items| ==> items[i].product != p
    ensures QuantityOf(items, p) == 0 && LinesFor(items, p) == 0
  {
    if items != [] {
      QuantityAbsent(items[1..], p);
    }
  }

  lemma {:induction false} QuantityAppend(items: seq<CartItem>, x: CartItem, p: Id)
    ensures QuantityOf(items + [x], p) == QuantityOf(items, p) + Contribution(x, p)
    ensures LinesFor(items + [x], p) == LinesFor(items, p) + (if x.product == p then 1 else 0)
  {
    if items != [] {
      assert (items + [x])[1..] == items[1..] + [x];
      QuantityAppend(items[1..], x, p);
    }
  }

  lemma {:induction false} QuantityUpdate(items: seq<CartItem>, k: nat, x: CartItem, p: Id)
    requires k < |items|
    ensures QuantityOf(items[k := x], p) == QuantityOf(items, p) - Contribution(items[k], p) + Contribution(x, p)
    ensures LinesFor(items[k := x], p)
            == LinesFor(items, p) - (if items[k].product == p then 1 else 0) + (if x.product == p then 1 else 0)
  {
    if k == 0 {
      assert items[k := x][1..] == items[1..];
    } else {
      assert items[k := x][1..] == items[1..][k - 1 := x];
      QuantityUpdate(items[1..], k - 1, x, p);
    }
  }

  /** In a cart with one line per product, the quantity held of a product is that of its line. */
  lemma {:induction false} QuantityOfUniqueLine(items: seq<CartItem>, k: nat)
    requires k < |items| && UniqueProducts(items)
    ensures QuantityOf(items, items[k].product) == items[k].quantity
    ensures LinesFor(items, items[k].product) == 1
  {
    var p := items[k].product;
    if k == 0 {
      QuantityAbsent(items[1..], p);
    } else {
      QuantityOfUniqueLine(items[1..], k - 1);
    }
  }

  /** Adding merges or appends: with an existing line for `p` the list keeps its length and
      only that line changes, its quantity growing by `q`; otherwise one line `{p, q}` is
      appended after the unchanged earlier lines.  Either way the cart holds `q` more of `p`,
      the same of every other product, and one line for `p`. */
  lemma AddLineEffect(items: seq<CartItem>, p: Id, q: int)
    requires UniqueProducts(items)
    ensures var r := AddLine(items, p, q);
      && (IndexOf(items, p) >= 0 ==>
            |r| == |items| && r[IndexOf(items, p)].quantity == items[IndexOf(items, p)].quantity + q
            && (forall i :: 0 <= i < |items| && i != IndexOf(items, p) ==> r[i] == items[i]))
      && (IndexOf(items, p) == -1 ==> |r| == |items| + 1 && r[..|items|] == items && r[|items|] == CartItem(p, q))
      && QuantityOf(r, p) == QuantityOf(items, p) + q
      && LinesFor(r, p) == 1
      && (forall p' :: p' != p ==> QuantityOf(r, p') == QuantityOf(items, p'))
  {
    var k := IndexOf(items, p);
    var r := AddLine(items, p, q);
    if k >= 0 {
      var x := items[k].(quantity := items[k].quantity + q);
      QuantityUpdate(items, k, x, p);
      QuantityOfUniqueLine(items, k);
      forall p' | p' != p ensures QuantityOf(r, p') == QuantityOf(items, p') {
        QuantityUpdate(items, k, x, p');
      }
    } else {
      QuantityAppend(items, CartItem(p, q), p);
      QuantityAbsent(items, p);
      forall p' | p' != p ensures QuantityOf(r, p') == QuantityOf(items, p') {
        QuantityAppend(items, CartItem(p, q), p');
      }
    }
  }

  /** Adding a valid line keeps "every line valid, one line per product". */
  lemma AddLineValid(items: seq<CartItem>, p: Id, q: int)
    requires ValidItems(items) && p != "" && q >= 1
    ensures ValidItems(AddLine(items, p, q))
  {
    var r := AddLine(items, p, q);
    var k := IndexOf(items, p);
    if k == -1 {
      assert r == items + [CartItem(p, q)];
      forall i, j | 0 <= i < j < |r| ensures r[i].product != r[j].product {
        if j == |items| { assert r[i] == items[i]; }
      }
    }
  }

  /** Two additions of the same product leave a single line holding both quantities. */
  lemma AddTwiceMerges(items: seq<CartItem>, p: Id, a: int, b: int)
    requires UniqueProducts(items)
    ensures LinesFor(AddLine(AddLine(items, p, a), p, b), p) == 1
    ensures QuantityOf(AddLine(AddLine(items, p, a), p, b), p) == QuantityOf(items, p) + a + b
  {
    AddLineEffect(items, p, a);
    var r := AddLine(items, p, a);
    assert UniqueProducts(r) by {
      var k := IndexOf(items, p);
      if k == -1 {
        forall i, j | 0 <= i < j < |r| ensures r[i].product != r[j].product {
          if j == |items| { assert r[i] == items[i]; }
        }
      }
    }
    AddLineEffect(r, p, b);
  }

  /** Setting the quantity of the line for `p` to `q`: the list keeps its length, only that
      line changes, the cart then holds exactly `q` of `p` and the same of every other product. */
  lemma SetLineEffect(items: seq<CartItem>, k: nat, q: int)
    requires k < |items| && UniqueProducts(items)
    ensures var r := SetLine(items, k, q);
      && |r| == |items| && r[k] == CartItem(items[k].product, q)
      && (forall i :: 0 <= i < |items| && i != k ==> r[i] == items[i])
      && QuantityOf(r, items[k].product) == q
      && (forall p' :: p' != items[k].product ==> QuantityOf(r, p') == QuantityOf(items, p'))
      && (q >= 1 && ValidItems(items) ==> ValidItems(r))
  {
    var r := SetLine(items, k, q);
    var p := items[k].product;
    QuantityUpdate(items, k, r[k], p);
    QuantityOfUniqueLine(items, k);
    forall p' | p' != p ensures QuantityOf(r, p') == QuantityOf(items, p') {
      QuantityUpdate(items, k, r[k], p');
    }
  }

  /** Removing keeps exactly the lines for other products, in their original order, and
      leaves no line for `p`; removing an absent product changes nothing. */
  lemma {:induction false} RemoveProductOrder(items: seq<CartItem>, p: Id)
    ensures IsSubsequence(RemoveProduct(items, p), items)
    ensures LinesFor(RemoveProduct(items, p), p) == 0
    ensures (forall i :: 0 <= i < |items| ==> items[i].product != p) ==> RemoveProduct(items, p) == items
  {
    if items != [] {
      RemoveProductOrder(items[1..], p);
      var rest := RemoveProduct(items[1..], p);
      var r := RemoveProduct(items, p);
      if items[0].product == p {
        assert r == rest;
        assert rest != [] ==> rest[0] in rest && rest[0] != items[0];
      } else {
        assert r == [items[0]] + rest;
        assert r[1..] == rest;
        if forall i :: 0 <= i < |items| ==> items[i].product != p {
          assert forall i :: 0 <= i < |items[1..]| ==> items[1..][i].product != p;
          assert [items[0]] + items[1..] == items;
        }
      }
    }
  }

  /** Removing `p` empties the cart of `p` and leaves every other product's quantity as it was. */
  lemma {:induction false} RemoveProductQuantity(items: seq<CartItem>, p: Id, p': Id)
    ensures QuantityOf(RemoveProduct(items, p), p') == if p' == p then 0 else QuantityOf(items, p')
  {
    if items != [] {
      RemoveProductQuantity(items[1..], p, p');
      var rest := RemoveProduct(items[1..], p);
      if items[0].product != p {
        assert RemoveProduct(items, p) == [items[0]] + rest;
        assert ([items[0]] + rest)[1..] == rest;
      } else {
        assert RemoveProduct(items, p) == [] + rest == rest;
      }
    }
  }

  /** Removing keeps "every line valid, one line per product". */
  lemma {:induction false} RemoveProductValid(items: seq<CartItem>, p: Id)
    requires ValidItems(items)
    ensures ValidItems(RemoveProduct(items, p))
  {
    if items != [] {
      var tail := items[1..];
      assert ValidItems(tail);
      RemoveProductValid(tail, p);
      var rest := RemoveProduct(tail, p);
      if items[0].product != p {
        forall y | y in rest ensures y.product != items[0].product {
          var k :| 0 <= k < |tail| && tail[k] == y;
          assert y == items[k + 1];
        }
        PrependValid(items[0], rest);
        assert RemoveProduct(items, p) == [items[0]] + rest;
      } else {
        assert RemoveProduct(items, p) == [] + rest;
      }
    }
  }

  /** A valid line in front of valid lines for other products keeps the list valid. */
  lemma PrependValid(x: CartItem, rest: seq<CartItem>)
    requires ValidLine(x) && ValidItems(rest)
    requires forall y :: y in rest ==> y.product != x.product
    ensures ValidItems([x] + rest)
  {
    var r := [x] + rest;
    forall i, j | 0 <= i < j < |r| ensures r[i].product != r[j].product {
      assert r[j] == rest[j - 1];
      if i > 0 { assert r[i] == rest[i - 1]; }
    }
  }

  /** The cart table: one line list per user id (the unique `userId` index). */
  class CartStore {
    var carts: map<Id, seq<CartItem>>

    ghost predicate Valid()
      reads this
    {
      forall u :: u in carts ==> ValidItems(carts[u])
    }

    constructor ()
      ensures Valid() && carts == map[]
    {
      carts := map[];
    }

    /** getCart: the stored cart, or a freshly created empty one. */
    method GetCart(user: Id) returns (items: seq<CartItem>)
      requires Valid()
      modifies this
      ensures Valid()
      ensures user in old(carts) ==> carts == old(carts) && items == carts[user]
      ensures user !in old(carts) ==> carts == old(carts)[user := []] && items == []
    {
      if user !in carts {
        carts := carts[user := []];
      }
      items := carts[user];
    }

    /** addToCart: 400 unless a product id and a quantity of at least 1 are given; otherwise
        a missing cart is created holding the single line, and an existing cart gets the
        quantity merged into the product's line or a new line appended. */
    method AddToCart(user: Id, productId: Option<Id>, quantity: Option<int>) returns (r: Result<seq<CartItem>>)
      requires Valid()
      modifies this
      ensures Valid()
      ensures !Truthy(productId) || quantity.None? || quantity.value < 1 ==>
                r == Err(400, "Product ID and valid quantity are required") && carts == old(carts)
      ensures Truthy(productId) && quantity.Some? && quantity.value >= 1 ==>
                && user in carts && r == Ok(carts[user])
                && (user !in old(carts) ==> carts == old(carts)[user := [CartItem(productId.value, quantity.value)]])
                && (user in old(carts) ==>
                      carts == old(carts)[user := AddLine(old(carts)[user], productId.value, quantity.value)])
    {
      if !Truthy(productId) || quantity.None? || quantity.value < 1 {
        return Err(400, "Product ID and valid quantity are required");
      }
      var p, q := productId.value, quantity.value;
      if user !in carts {
        carts := carts[user := [CartItem(p, q)]];
      } else {
        var items := carts[user];
        var k := FindLine(items, p);
        if k > -1 {
          items := items[k := items[k].(quantity := items[k].quantity + q)];
        } else {
          items := items + [CartItem(p, q)];
        }
        AddLineValid(carts[user], p, q);
        carts := carts[user := items];
      }
      r := Ok(carts[user]);
    }

    /** updateCartItem: 400 for a missing product id or a quantity below 1 (checked first),
        then 404 without a cart or without a line for the product; otherwise that line's
        quantity is replaced. */
    method UpdateCartItem(user: Id, productId: Option<Id>, quantity: Option<int>) returns (r: Result<seq<CartItem>>)
      requires Valid()
      modifies this
      ensures Valid()
      ensures r.Err? ==> carts == old(carts)
      ensures !Truthy(productId) || quantity.None? || quantity.value < 1 ==>
                r == Err(400, "Product ID and valid quantity are required")
      ensures Truthy(productId) && quantity.Some? && quantity.value >= 1 ==>
                && (user !in old(carts) ==> r == Err(404, "Cart not found"))
                && (user in old(carts) && IndexOf(old(carts)[user], productId.value) == -1 ==>
                      r == Err(404, "Product not found in cart"))
                && (user in old(carts) && IndexOf(old(carts)[user], productId.value) >= 0 ==>
                      carts == old(carts)[user := SetLine(old(carts)[user], IndexOf(old(carts)[user], productId.value), quantity.value)]
                      && r == Ok(carts[user]))
    {
      if !Truthy(productId) || quantity.None? || quantity.value < 1 {
        return Err(400, "Product ID and valid quantity are required");
      }
      if user !in carts {
        return Err(404, "Cart not found");
      }
      var items := carts[user];
      var k := FindLine(items, productId.value);
      if k == -1 {
        return Err(404, "Product not found in cart");
      }
      SetLineEffect(items, k, quantity.value);
      carts := carts[user := SetLine(items, k, quantity.value)];
      r := Ok(carts[user]);
    }

    /** removeFromCart: 404 only when there is no cart; otherwise the lines for the product
        are filtered out (nothing changes when there is none). */
    method RemoveFromCart(user: Id, productId: Id) returns (r: Result<seq<CartItem>>)
      requires Valid()
      modifies this
      ensures Valid()
      ensures user !in old(carts) ==> r == Err(404, "Cart not found") && carts == old(carts)
      ensures user in old(carts) ==>
                carts == old(carts)[user := RemoveProduct(old(carts)[user], productId)] && r == Ok(carts[user])
    {
      if user !in carts {
        return Err(404, "Cart not found");
      }
      RemoveProductValid(carts[user], productId);
      carts := carts[user := RemoveProduct(carts[user], productId)];
      r := Ok(carts[user]);
    }

    /** clearCart: 404 without a cart; otherwise the line list becomes empty. */
    method ClearCart(user: Id) returns (r: Result<seq<CartItem>>)
      requires Valid()
      modifies this
      ensures Valid()
      ensures user !in old(carts) ==> r == Err(404, "Cart not found") && carts == old(carts)
      ensures user in old(carts) ==> carts == old(carts)[user := []] && r == Ok([])
    {
      if user !in carts {
        return Err(404, "Cart not found");
      }
      carts := carts[user := []];
      r := Ok([]);
    }
  }
}
