/** The Cart schema (model/cart.js): one cart per user (unique index on
    `user`), holding an insertion-ordered list of (product, quantity) lines
    with quantity at least 1, and the `addItem` method that merges a
    re-added product into its existing line. */
module CartModel {
  import opened Base
  import opened ProductModel

  datatype CartLine = CartLine(product: Id, quantity: int)

  datatype Cart = Cart(user: Id, items: seq<CartLine>)

  /** The quantity a line gets when none is given. */
  const DefaultQuantity := 1

  /** No product has two lines. */
  predicate DistinctProducts(items: seq<CartLine>) {
    forall i, j :: 0 <= i < j < |items| ==> items[i].product != items[j].product
  }

  /** The `min: 1` validator of every line's quantity. */
  predicate PositiveQuantities(items: seq<CartLine>) {
    forall i :: 0 <= i < |items| ==> items[i].quantity >= 1
  }

  predicate ValidCart(c: Cart) {
    DistinctProducts(c.items) && PositiveQuantities(c.items)
  }

  /** The unique index on `user`: no two carts belong to the same user. */
  predicate OneCartPerUser(carts: map<Id, Cart>) {
    forall a, b :: a in carts && b in carts && carts[a].user == carts[b].user ==> a == b
  }

  /** `cartModel.findOne({ user })`: the id of the user's cart, if any. */
  function CartOf(carts: map<Id, Cart>, user: Id): (r: Option<Id>)
    ensures r.Some? ==> r.value in carts && carts[r.value].user == user
    ensures r.None? <==> forall id :: id in carts ==> carts[id].user != user
  {
    FindKey(carts, (c: Cart) => c.user == user)
  }

  /** With one cart per user, the cart `CartOf` finds is the only one. */
  lemma CartOfUnique(carts: map<Id, Cart>, user: Id, id: Id)
    requires OneCartPerUser(carts)
    requires id in carts && carts[id].user == user
    ensures CartOf(carts, user) == Some(id)
  {
  }

  predicate AllCartsValid(carts: map<Id, Cart>) {
    forall id :: id in carts ==> ValidCart(carts[id])
  }

  /** `items.findIndex(item => item.product === product)`, with None for -1. */
  function LineOf(items: seq<CartLine>, product: Id): (r: Option<nat>)
    ensures r.Some? ==> r.value < |items| && items[r.value].product == product
    ensures r.Some? ==> forall k :: 0 <= k < r.value ==> items[k].product != product
    ensures r.None? <==> forall k :: 0 <= k < |items| ==> items[k].product != product
  {
    if |items| == 0 then None
    else if items[0].product == product then Some(0)
    else match LineOf(items[1..], product)
      case None => None
      case Some(k) => Some(k + 1)
  }

  /** The only line that can hold a product when products are distinct is
      the one `LineOf` finds. */
  lemma LineOfUnique(items: seq<CartLine>, product: Id, k: nat)
    requires DistinctProducts(items)
    requires k < |items| && items[k].product == product
    ensures LineOf(items, product) == Some(k)
  {
  }

  /** `cart.addItem(productId, qty = 1)`: a product already in the cart has
      its line's quantity raised by `qty` and the cart keeps its length;
      a new product is appended as one more line. Nothing else changes. */
  function AddItem(items: seq<CartLine>, product: Id, qty: int := DefaultQuantity): (r: seq<CartLine>)
    ensures LineOf(items, product).Some? ==>
      var i := LineOf(items, product).value;
      && |r| == |items|
      && r[i] == CartLine(product, items[i].quantity + qty)
      && forall k :: 0 <= k < |items| && k != i ==> r[k] == items[k]
    ensures LineOf(items, product).None? ==>
      && |r| == |items| + 1
      && r[..|items|] == items
      && r[|items|] == CartLine(product, qty)
    ensures DistinctProducts(items) ==> DistinctProducts(r)
    ensures PositiveQuantities(items) && qty >= 1 ==> PositiveQuantities(r)
  {
    match LineOf(items, product)
    case Some(i) =>
      var r := items[i := items[i].(quantity := items[i].quantity + qty)];
      SameProductsDistinct(items, r);
      r
    case None =>
      AppendDistinct(items, CartLine(product, qty));
      items + [CartLine(product, qty)]
  }

  /** Changing quantities only keeps the products distinct. */
  lemma SameProductsDistinct(items: seq<CartLine>, r: seq<CartLine>)
    requires |r| == |items| && forall k :: 0 <= k < |items| ==> r[k].product == items[k].product
    ensures DistinctProducts(items) ==> DistinctProducts(r)
  {
  }

  /** Appending a line for a product the cart does not hold keeps the
      products distinct. */
  lemma AppendDistinct(items: seq<CartLine>, l: CartLine)
    requires forall k :: 0 <= k < |items| ==> items[k].product != l.product
    ensures DistinctProducts(items) ==> DistinctProducts(items + [l])
  {
    if DistinctProducts(items) {
      forall i, j | 0 <= i < j < |items| + 1 ensures (items + [l])[i].product != (items + [l])[j].product {
        if j == |items| {
          assert (items + [l])[i] == items[i];
        }
      }
    }
  }

  /** `items.splice(i, 1)`: the line at `i` goes, the others keep their
      relative order. */
  function RemoveAt(items: seq<CartLine>, i: nat): (r: seq<CartLine>)
    requires i < |items|
    ensures |r| == |items| - 1
    ensures forall k :: 0 <= k < i ==> r[k] == items[k]
    ensures forall k :: i <= k < |r| ==> r[k] == items[k + 1]
    ensures DistinctProducts(items) ==> DistinctProducts(r)
    ensures PositiveQuantities(items) ==> PositiveQuantities(r)
  {
    items[..i] + items[i + 1..]
  }

  /** With one line per product, removing line `i` leaves no line for its
      product and keeps every other line. */
  lemma RemoveAtDropsProduct(items: seq<CartLine>, i: nat)
    requires i < |items| && DistinctProducts(items)
    ensures LineOf(RemoveAt(items, i), items[i].product).None?
    ensures forall k :: 0 <= k < |items| && k != i ==> items[k] in RemoveAt(items, i)
  {
    var r := RemoveAt(items, i);
    forall k | 0 <= k < |r| ensures r[k].product != items[i].product {
      if k < i {
        assert r[k] == items[k];
      } else {
        assert r[k] == items[k + 1];
      }
    }
    forall k | 0 <= k < |items| && k != i ensures items[k] in r {
      if k < i {
        assert r[k] == items[k];
      } else {
        assert r[k - 1] == items[k];
      }
    }
  }

  /** `cartItem.quantity = quantity`: the line at `i` gets the new quantity,
      overwriting the old one; no other line changes. */
  function SetQuantity(items: seq<CartLine>, i: nat, qty: int): (r: seq<CartLine>)
    requires i < |items|
    ensures |r| == |items|
    ensures r[i] == CartLine(items[i].product, qty)
    ensures forall k :: 0 <= k < |items| && k != i ==> r[k] == items[k]
    ensures DistinctProducts(items) ==> DistinctProducts(r)
    ensures PositiveQuantities(items) && qty >= 1 ==> PositiveQuantities(r)
  {
    items[i := items[i].(quantity := qty)]
  }

  /** Every line's product is in the catalog (so `populate` finds it). */
  predicate Resolved(items: seq<CartLine>, products: map<Id, Product>) {
    forall i :: 0 <= i < |items| ==> items[i].product in products
  }

  /** Sum of `price * quantity` over the lines, at the catalog's current
      prices: the cart total. */
  function LinesTotal(items: seq<CartLine>, products: map<Id, Product>): int
    requires Resolved(items, products)
  {
    if |items| == 0 then 0
    else products[items[0].product].price * items[0].quantity + LinesTotal(items[1..], products)
  }

  /** Raising or appending a line by `qty` raises the total by that product's
      price times `qty`. */
  lemma AddItemTotal(items: seq<CartLine>, product: Id, qty: int, products: map<Id, Product>)
    requires Resolved(items, products) && product in products
    ensures Resolved(AddItem(items, product, qty), products)
    ensures LinesTotal(AddItem(items, product, qty), products)
         == LinesTotal(items, products) + products[product].price * qty
  {
    match LineOf(items, product)
    case Some(i) =>
      var q := items[i].quantity + qty;
      assert AddItem(items, product, qty) == SetQuantity(items, i, q);
      SetQuantityTotal(items, i, q, products);
    case None =>
      LinesTotalAppend(items, CartLine(product, qty), products);
  }

  /** Appending a line raises the total by its subtotal. */
  lemma {:induction false} LinesTotalAppend(items: seq<CartLine>, l: CartLine, products: map<Id, Product>)
    requires Resolved(items, products) && l.product in products
    ensures Resolved(items + [l], products)
    ensures LinesTotal(items + [l], products) == LinesTotal(items, products) + products[l.product].price * l.quantity
  {
    var r := items + [l];
    assert Resolved(r, products) by {
      forall k | 0 <= k < |r| ensures r[k].product in products {
        if k < |items| {
          assert r[k] == items[k];
        }
      }
    }
    if |items| == 0 {
      assert r == [l];
    } else {
      assert r[1..] == items[1..] + [l];
      LinesTotalAppend(items[1..], l, products);
    }
  }

  /** Removing line `i` lowers the total by that line's subtotal. */
  lemma {:induction false} RemoveAtTotal(items: seq<CartLine>, i: nat, products: map<Id, Product>)
    requires i < |items| && Resolved(items, products)
    ensures Resolved(RemoveAt(items, i), products)
    ensures LinesTotal(RemoveAt(items, i), products)
         == LinesTotal(items, products) - products[items[i].product].price * items[i].quantity
  {
    var r := RemoveAt(items, i);
    if i == 0 {
      assert r == items[1..];
    } else {
      RemoveAtTotal(items[1..], i - 1, products);
      assert r[1..] == RemoveAt(items[1..], i - 1);
    }
  }

  /** Overwriting line `i`'s quantity changes the total by the price times
      the difference. */
  lemma {:induction false} SetQuantityTotal(items: seq<CartLine>, i: nat, qty: int, products: map<Id, Product>)
    requires i < |items| && Resolved(items, products)
    ensures Resolved(SetQuantity(items, i, qty), products)
    ensures LinesTotal(SetQuantity(items, i, qty), products)
         == LinesTotal(items, products) + products[items[i].product].price * (qty - items[i].quantity)
  {
    var r := SetQuantity(items, i, qty);
    if i == 0 {
      assert r[1..] == items[1..];
    } else {
      SetQuantityTotal(items[1..], i - 1, qty, products);
      assert r[1..] == SetQuantity(items[1..], i - 1, qty);
    }
  }
}
