/** The cart handlers (controller/cart.js). `addToCart` finds the caller's
    cart by its `user` path and merges lines by `product`, as the schema
    names them. `removeFromCart`, `updateCart` and `getCart` as written
    filter on `userId` and match lines on `productId`, paths the cart
    schema does not have; `RemoveFromCart`, `UpdateCart` and `GetCart` model
    the list operations those handlers evidently intend, and the
    `...AsWritten` functions record what the written lookups do. */
module CartController {
  import opened Base
  import opened ProductModel
  import opened CartModel
  import opened Store

  const FieldsRequiredMessage := "Product ID and quantity are required"
  const ProductIdRequiredMessage := "Product ID is required"
  const QuantityMessage := "Quantity must be greater than 0"
  const ProductNotFoundMessage := "Product not found"
  const InsufficientStockMessage := "Insufficient stock available"
  const CartNotFoundMessage := "Cart not found"
  const NotInCartMessage := "Product not found in cart"

  /** `addToCart`. The stock check compares the product's stock with the
      quantity of this request only, not with the line's merged quantity.
      A caller without a cart gets a new one under `newCartId`. */
  function AddToCart(db: Db, user: Id, productId: Option<Id>, quantity: Option<int>, newCartId: Id): (r: Step<Cart>)
    requires newCartId !in db.carts
    ensures r.reply.Fail? ==> r.db == db
    ensures r.reply == Fail(400, FieldsRequiredMessage) <==> productId.None? || !TruthyNum(quantity)
    ensures r.reply == Fail(400, QuantityMessage) <==>
      productId.Some? && TruthyNum(quantity) && quantity.value < 0
    ensures r.reply == Fail(404, ProductNotFoundMessage) <==>
      productId.Some? && TruthyNum(quantity) && quantity.value > 0 && productId.value !in db.products
    ensures r.reply == Fail(400, InsufficientStockMessage) <==>
      && productId.Some? && TruthyNum(quantity) && quantity.value > 0 && productId.value in db.products
      && db.products[productId.value].stock < quantity.value
    ensures r.reply.Ok? <==>
      && productId.Some? && TruthyNum(quantity) && quantity.value > 0 && productId.value in db.products
      && db.products[productId.value].stock >= quantity.value
    ensures r.db.users == db.users && r.db.products == db.products && r.db.categories == db.categories
      && r.db.orders == db.orders && r.db.reviews == db.reviews
    ensures r.reply.Ok? ==>
      && r.reply.code == 200
      && r.reply.value.user == user
      && r.reply.value.items == AddItem(
           match CartOf(db.carts, user) case Some(cid) => db.carts[cid].items case None => [],
           productId.value, quantity.value)
      && (CartOf(db.carts, user).Some? ==> r.db.carts == db.carts[CartOf(db.carts, user).value := r.reply.value])
      && (CartOf(db.carts, user).None? ==> r.db.carts == db.carts[newCartId := r.reply.value])
  {
    if productId.None? || !TruthyNum(quantity) then Refuse(400, FieldsRequiredMessage, db)
    else if quantity.value <= 0 then Refuse(400, QuantityMessage, db)
    else if productId.value !in db.products then Refuse(404, ProductNotFoundMessage, db)
    else if db.products[productId.value].stock < quantity.value then Refuse(400, InsufficientStockMessage, db)
    else match CartOf(db.carts, user)
      case Some(cid) =>
        var c := db.carts[cid].(items := AddItem(db.carts[cid].items, productId.value, quantity.value));
        Done(200, c, db.(carts := db.carts[cid := c]))
      case None =>
        var c := Cart(user, AddItem([], productId.value, quantity.value));
        Done(200, c, db.(carts := db.carts[newCartId := c]))
  }

  /** `addToCart` keeps the cart invariants: still one cart per user, and
      every cart still has one line per product with positive quantities. */
  lemma {:induction false} AddToCartKeepsInvariants(db: Db, user: Id, productId: Option<Id>, quantity: Option<int>,
                                                    newCartId: Id)
    requires newCartId !in db.carts
    requires OneCartPerUser(db.carts) && AllCartsValid(db.carts)
    ensures
      var r := AddToCart(db, user, productId, quantity, newCartId);
      OneCartPerUser(r.db.carts) && AllCartsValid(r.db.carts)
  {
    var r := AddToCart(db, user, productId, quantity, newCartId);
    if r.reply.Ok? {
      match CartOf(db.carts, user)
      case Some(cid) =>
        assert ValidCart(db.carts[cid]);
        StoreCartKeepsOneCart(db.carts, cid, r.reply.value);
      case None =>
        StoreCartKeepsOneCart(db.carts, newCartId, r.reply.value);
    }
  }

  /** After `addToCart` the caller's cart total has grown by the product's
      price times the quantity added. */
  lemma AddToCartTotal(db: Db, user: Id, productId: Option<Id>, quantity: Option<int>, newCartId: Id)
    requires newCartId !in db.carts
    requires AddToCart(db, user, productId, quantity, newCartId).reply.Ok?
    requires CartOf(db.carts, user).Some? ==> Resolved(db.carts[CartOf(db.carts, user).value].items, db.products)
    ensures
      var before := match CartOf(db.carts, user) case Some(cid) => db.carts[cid].items case None => [];
      var after := AddToCart(db, user, productId, quantity, newCartId).reply.value.items;
      && Resolved(before, db.products) && Resolved(after, db.products)
      && LinesTotal(after, db.products)
         == LinesTotal(before, db.products) + db.products[productId.value].price * quantity.value
  {
    var before := match CartOf(db.carts, user) case Some(cid) => db.carts[cid].items case None => [];
    AddItemTotal(before, productId.value, quantity.value, db.products);
  }

  /** The stock check does not see the quantity already in the cart: a
      product with 5 in stock, 4 of which are already in the caller's cart,
      can be added 3 more times, leaving a line of 7. */
  lemma MergedQuantityExceedsStock(db: Db, user: Id, cid: Id, p: Id, newCartId: Id)
    requires newCartId !in db.carts
    requires OneCartPerUser(db.carts)
    requires cid in db.carts && db.carts[cid] == Cart(user, [CartLine(p, 4)])
    requires p in db.products && db.products[p].stock == 5
    ensures
      var r := AddToCart(db, user, Some(p), Some(3), newCartId);
      && r.reply.Ok?
      && r.reply.value.items == [CartLine(p, 7)]
      && r.reply.value.items[0].quantity > db.products[p].stock
  {
    CartOfUnique(db.carts, user, cid);
  }

  /** `removeFromCart` as its lookups intend: the caller's cart, the line of
      the product, spliced out. */
  function RemoveFromCart(db: Db, user: Id, productId: Option<Id>): (r: Step<Cart>)
    ensures r.reply.Fail? ==> r.db == db
    ensures r.reply == Fail(400, ProductIdRequiredMessage) <==> productId.None?
    ensures r.reply == Fail(404, CartNotFoundMessage) <==> productId.Some? && CartOf(db.carts, user).None?
    ensures r.reply == Fail(404, NotInCartMessage) <==>
      && productId.Some? && CartOf(db.carts, user).Some?
      && LineOf(db.carts[CartOf(db.carts, user).value].items, productId.value).None?
    ensures r.reply.Ok? <==>
      && productId.Some? && CartOf(db.carts, user).Some?
      && LineOf(db.carts[CartOf(db.carts, user).value].items, productId.value).Some?
    ensures r.db.users == db.users && r.db.products == db.products && r.db.categories == db.categories
      && r.db.orders == db.orders && r.db.reviews == db.reviews
    ensures r.reply.Ok? ==>
      && CartOf(db.carts, user).Some?
      && var cid := CartOf(db.carts, user).value;
      && var items := db.carts[cid].items;
      && LineOf(items, productId.value).Some?
      && var i := LineOf(items, productId.value).value;
      && r.reply == Ok(200, db.carts[cid].(items := RemoveAt(items, i)))
      && r.db.carts == db.carts[cid := r.reply.value]
  {
    if productId.None? then Refuse(400, ProductIdRequiredMessage, db)
    else match CartOf(db.carts, user)
      case None => Refuse(404, CartNotFoundMessage, db)
      case Some(cid) =>
        match LineOf(db.carts[cid].items, productId.value)
        case None => Refuse(404, NotInCartMessage, db)
        case Some(i) =>
          var c := db.carts[cid].(items := RemoveAt(db.carts[cid].items, i));
          Done(200, c, db.(carts := db.carts[cid := c]))
  }

  /** In a valid cart, removing a product leaves no line for it, removes
      exactly one line, and lowers the total by that line's subtotal. */
  lemma RemoveFromCartDropsLine(db: Db, user: Id, productId: Option<Id>)
    requires RemoveFromCart(db, user, productId).reply.Ok?
    requires ValidCart(db.carts[CartOf(db.carts, user).value])
    requires Resolved(db.carts[CartOf(db.carts, user).value].items, db.products)
    ensures
      var before := db.carts[CartOf(db.carts, user).value].items;
      var after := RemoveFromCart(db, user, productId).reply.value.items;
      var i := LineOf(before, productId.value).value;
      && |after| == |before| - 1
      && LineOf(after, productId.value).None?
      && (forall k :: 0 <= k < |before| && k != i ==> before[k] in after)
      && Resolved(after, db.products)
      && LinesTotal(after, db.products)
         == LinesTotal(before, db.products) - db.products[productId.value].price * before[i].quantity
  {
    var before := db.carts[CartOf(db.carts, user).value].items;
    var i := LineOf(before, productId.value).value;
    assert RemoveFromCart(db, user, productId).reply.value.items == RemoveAt(before, i);
    RemoveAtTotal(before, i, db.products);
    RemoveAtDropsProduct(before, i);
  }

  /** `removeFromCart` as written: `findOne({ userId })` names a path the
      cart schema does not have, so no cart matches and every request with
      a product id is answered 404 "Cart not found". */
  function RemoveFromCartAsWritten(db: Db, user: Id, productId: Option<Id>): (r: Step<Cart>)
    ensures r.db == db
    ensures r.reply.Fail?
    ensures productId.Some? ==> r.reply == Fail(404, CartNotFoundMessage)
  {
    if productId.None? then Refuse(400, ProductIdRequiredMessage, db)
    else Refuse(404, CartNotFoundMessage, db)
  }

  /** `updateCart` as written: the request and product checks of
      `UpdateCart`, then `findOne({ userId })`, which matches no cart. */
  function UpdateCartAsWritten(db: Db, user: Id, productId: Option<Id>, quantity: Option<int>): (r: Step<Cart>)
    ensures r.db == db
    ensures r.reply.Fail?
    ensures r.reply == Fail(404, CartNotFoundMessage) <==>
      && productId.Some? && quantity.Some? && quantity.value > 0 && productId.value in db.products
      && db.products[productId.value].stock >= quantity.value
    ensures r.reply != Fail(404, CartNotFoundMessage) ==> r.reply == UpdateCart(db, user, productId, quantity).reply
  {
    if productId.None? || quantity.None? then Refuse(400, FieldsRequiredMessage, db)
    else if quantity.value <= 0 then Refuse(400, QuantityMessage, db)
    else if productId.value !in db.products then Refuse(404, ProductNotFoundMessage, db)
    else if db.products[productId.value].stock < quantity.value then Refuse(400, InsufficientStockMessage, db)
    else Refuse(404, CartNotFoundMessage, db)
  }

  /** `getCart` as written: `findOne({ userId })` matches no cart. */
  function GetCartAsWritten(db: Db, user: Id): (r: Reply<CartView>)
    ensures r == Fail(404, CartNotFoundMessage)
  {
    Fail(404, CartNotFoundMessage)
  }

  /** The written lookups refuse what the intended ones perform: a caller
      whose cart holds a product is told there is no cart when removing the
      product, when setting its line to a quantity the stock covers, and
      when reading the cart. */
  lemma LookupAsWrittenMissesCart(db: Db, user: Id, cid: Id, p: Id, q: int)
    requires OneCartPerUser(db.carts)
    requires cid in db.carts && db.carts[cid].user == user
    requires Resolved(db.carts[cid].items, db.products)
    requires exists k :: 0 <= k < |db.carts[cid].items| && db.carts[cid].items[k].product == p
    requires q > 0 && p in db.products && db.products[p].stock >= q
    ensures RemoveFromCart(db, user, Some(p)).reply.Ok?
    ensures |RemoveFromCart(db, user, Some(p)).reply.value.items| == |db.carts[cid].items| - 1
    ensures RemoveFromCartAsWritten(db, user, Some(p)).reply == Fail(404, CartNotFoundMessage)
    ensures UpdateCart(db, user, Some(p), Some(q)).reply.Ok?
    ensures UpdateCartAsWritten(db, user, Some(p), Some(q)).reply == Fail(404, CartNotFoundMessage)
    ensures GetCart(db, user).Ok? && GetCart(db, user).value.cart == db.carts[cid]
    ensures GetCartAsWritten(db, user) == Fail(404, CartNotFoundMessage)
  {
    CartOfUnique(db.carts, user, cid);
    var k :| 0 <= k < |db.carts[cid].items| && db.carts[cid].items[k].product == p;
    assert LineOf(db.carts[cid].items, p).Some?;
  }

  /** `updateCart` as its lookups intend: the checks of `addToCart`, except
      that only an absent quantity counts as missing, then the caller's
      cart and the product's line, whose quantity is overwritten. */
  function UpdateCart(db: Db, user: Id, productId: Option<Id>, quantity: Option<int>): (r: Step<Cart>)
    ensures r.reply.Fail? ==> r.db == db
    ensures r.reply == Fail(400, FieldsRequiredMessage) <==> productId.None? || quantity.None?
    ensures r.reply == Fail(400, QuantityMessage) <==> productId.Some? && quantity.Some? && quantity.value <= 0
    ensures r.reply == Fail(404, ProductNotFoundMessage) <==>
      productId.Some? && quantity.Some? && quantity.value > 0 && productId.value !in db.products
    ensures r.reply == Fail(400, InsufficientStockMessage) <==>
      && productId.Some? && quantity.Some? && quantity.value > 0 && productId.value in db.products
      && db.products[productId.value].stock < quantity.value
    ensures r.reply == Fail(404, CartNotFoundMessage) <==>
      && productId.Some? && quantity.Some? && quantity.value > 0 && productId.value in db.products
      && db.products[productId.value].stock >= quantity.value
      && CartOf(db.carts, user).None?
    ensures r.reply == Fail(404, NotInCartMessage) <==>
      && productId.Some? && quantity.Some? && quantity.value > 0 && productId.value in db.products
      && db.products[productId.value].stock >= quantity.value
      && CartOf(db.carts, user).Some?
      && LineOf(db.carts[CartOf(db.carts, user).value].items, productId.value).None?
    ensures r.reply.Ok? <==>
      && productId.Some? && quantity.Some? && quantity.value > 0 && productId.value in db.products
      && db.products[productId.value].stock >= quantity.value
      && CartOf(db.carts, user).Some?
      && LineOf(db.carts[CartOf(db.carts, user).value].items, productId.value).Some?
    ensures r.db.users == db.users && r.db.products == db.products && r.db.categories == db.categories
      && r.db.orders == db.orders && r.db.reviews == db.reviews
    ensures r.reply.Ok? ==>
      && CartOf(db.carts, user).Some?
      && var cid := CartOf(db.carts, user).value;
      && var items := db.carts[cid].items;
      && LineOf(items, productId.value).Some?
      && var i := LineOf(items, productId.value).value;
      && r.reply == Ok(200, db.carts[cid].(items := SetQuantity(items, i, quantity.value)))
      && r.db.carts == db.carts[cid := r.reply.value]
  {
    if productId.None? || quantity.None? then Refuse(400, FieldsRequiredMessage, db)
    else if quantity.value <= 0 then Refuse(400, QuantityMessage, db)
    else if productId.value !in db.products then Refuse(404, ProductNotFoundMessage, db)
    else if db.products[productId.value].stock < quantity.value then Refuse(400, InsufficientStockMessage, db)
    else match CartOf(db.carts, user)
      case None => Refuse(404, CartNotFoundMessage, db)
      case Some(cid) =>
        match LineOf(db.carts[cid].items, productId.value)
        case None => Refuse(404, NotInCartMessage, db)
        case Some(i) =>
          var c := db.carts[cid].(items := SetQuantity(db.carts[cid].items, i, quantity.value));
          Done(200, c, db.(carts := db.carts[cid := c]))
  }

  /** Updating overwrites: afterwards the product's line holds exactly the
      requested quantity, never more than the stock, whatever it held
      before, and the cart invariants still hold. */
  lemma UpdateCartOverwrites(db: Db, user: Id, productId: Option<Id>, quantity: Option<int>)
    requires UpdateCart(db, user, productId, quantity).reply.Ok?
    requires OneCartPerUser(db.carts) && AllCartsValid(db.carts)
    ensures
      var r := UpdateCart(db, user, productId, quantity);
      var after := r.reply.value.items;
      && LineOf(after, productId.value).Some?
      && after[LineOf(after, productId.value).value].quantity == quantity.value
      && quantity.value <= db.products[productId.value].stock
      && OneCartPerUser(r.db.carts) && AllCartsValid(r.db.carts)
  {
    var cid := CartOf(db.carts, user).value;
    var before := db.carts[cid].items;
    var i := LineOf(before, productId.value).value;
    var after := SetQuantity(before, i, quantity.value);
    assert ValidCart(db.carts[cid]);
    LineOfUnique(after, productId.value, i);
  }

  /** What `getCart` answers: the cart, its total at the catalog's current
      prices and its number of lines. */
  datatype CartView = CartView(cart: Cart, totalPrice: int, itemCount: nat)

  const CartReadErrorMessage := "Server error while retrieving cart"

  /** `getCart` as its lookup intends. A line whose product has been
      deleted populates to null, and reading its price throws: status 500. */
  function GetCart(db: Db, user: Id): (r: Reply<CartView>)
    ensures r == Fail(404, CartNotFoundMessage) <==> CartOf(db.carts, user).None?
    ensures r == Fail(ServerError, CartReadErrorMessage) <==>
      CartOf(db.carts, user).Some? && !Resolved(db.carts[CartOf(db.carts, user).value].items, db.products)
    ensures r.Ok? <==>
      CartOf(db.carts, user).Some? && Resolved(db.carts[CartOf(db.carts, user).value].items, db.products)
    ensures r.Ok? ==>
      && CartOf(db.carts, user).Some?
      && var c := db.carts[CartOf(db.carts, user).value];
      && Resolved(c.items, db.products)
      && r == Ok(200, CartView(c, LinesTotal(c.items, db.products), |c.items|))
  {
    match CartOf(db.carts, user)
    case None => Fail(404, CartNotFoundMessage)
    case Some(cid) =>
      var c := db.carts[cid];
      if !Resolved(c.items, db.products) then Fail(ServerError, CartReadErrorMessage)
      else Ok(200, CartView(c, LinesTotal(c.items, db.products), |c.items|))
  }

  /** Adding to the cart and then reading it: one line more or the same
      number of lines, and a total higher by the price times the quantity
      added. */
  lemma {:induction false} AddThenGetCart(db: Db, user: Id, productId: Option<Id>, quantity: Option<int>, newCartId: Id)
    requires newCartId !in db.carts
    requires OneCartPerUser(db.carts)
    requires AddToCart(db, user, productId, quantity, newCartId).reply.Ok?
    requires GetCart(db, user).Ok? || CartOf(db.carts, user).None?
    ensures
      var before := match GetCart(db, user) case Ok(_, v) => v case Fail(_, _) => CartView(Cart(user, []), 0, 0);
      var after := GetCart(AddToCart(db, user, productId, quantity, newCartId).db, user);
      && after.Ok?
      && after.value.totalPrice == before.totalPrice + db.products[productId.value].price * quantity.value
      && (after.value.itemCount == before.itemCount || after.value.itemCount == before.itemCount + 1)
  {
    var r := AddToCart(db, user, productId, quantity, newCartId);
    AddToCartTotal(db, user, productId, quantity, newCartId);
    match CartOf(db.carts, user)
    case Some(cid) =>
      StoreCartKeepsOneCart(db.carts, cid, r.reply.value);
      CartOfUnique(r.db.carts, user, cid);
    case None =>
      StoreCartKeepsOneCart(db.carts, newCartId, r.reply.value);
      CartOfUnique(r.db.carts, user, newCartId);
  }

  /** Writing a cart under its owner's existing cart id, or under any id
      when the owner has no cart yet, keeps one cart per user. */
  lemma StoreCartKeepsOneCart(carts: map<Id, Cart>, id: Id, c: Cart)
    requires OneCartPerUser(carts)
    requires (id in carts && carts[id].user == c.user) || forall k :: k in carts ==> carts[k].user != c.user
    ensures OneCartPerUser(carts[id := c])
  {
    var next := carts[id := c];
    forall a, b | a in next && b in next && next[a].user == next[b].user
      ensures a == b
    {
      if a != id && b != id {
        assert next[a] == carts[a] && next[b] == carts[b];
      }
    }
  }
}
