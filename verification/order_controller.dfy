/** The order handlers (controller/order.js) over the in-memory database:
    `createOrder` as written, a corrected `PlaceOrder` with the
    all-or-nothing behaviour the code evidently aims at, `updateOrderStatus`,
    and the two newest-first listings. */
module OrderController {
  import opened Base
  import opened ProductModel
  import opened CartModel
  import opened OrderModel
  import opened Store

  const MissingFieldsMessage := "Shipping address and payment method are required"
  const EmptyCartMessage := "Cart is empty"
  const CreateErrorMessage := "Server error while creating order"

  /** The product document after `product.stock -= quantity`. */
  function Decrement(p: Product, qty: int): (r: Product)
    ensures r.stock == p.stock - qty
    ensures r.(stock := p.stock) == p
  {
    p.(stock := p.stock - qty)
  }

  /** A line makes the loop throw on the product documents as they stand:
      `populate` left its product null (the product is gone), or
      `product.save()` rejects the decremented document (its stock went
      below the `min: 0` validator). */
  predicate LineFails(products: map<Id, Product>, l: CartLine) {
    l.product !in products || !ValidProduct(Decrement(products[l.product], l.quantity))
  }

  /** The write of one line: its product's document, as the earlier lines
      left it, saved with the stock lowered by the line's quantity.
      `populate` loads one document per product, so lines naming the same
      product share it and their decrements add up. */
  function SaveLine(products: map<Id, Product>, l: CartLine): (r: map<Id, Product>)
    ensures r.Keys == products.Keys
    ensures forall k :: k in r ==> r[k].price == products[k].price
  {
    if l.product in products then products[l.product := Decrement(products[l.product], l.quantity)]
    else products
  }

  /** The stock writes of the lines, in cart order. */
  function ApplyLines(lines: seq<CartLine>, products: map<Id, Product>): (r: map<Id, Product>)
    ensures r.Keys == products.Keys
    ensures forall k :: k in r ==> r[k].price == products[k].price
  {
    if |lines| == 0 then products
    else ApplyLines(lines[1..], SaveLine(products, lines[0]))
  }

  /** Line `k` is the first line that makes the loop throw, on the
      documents the lines before it left. */
  predicate FirstFailure(products: map<Id, Product>, lines: seq<CartLine>, k: int) {
    && 0 <= k < |lines|
    && LineFails(ApplyLines(lines[..k], products), lines[k])
    && forall i :: 0 <= i < k ==> !LineFails(ApplyLines(lines[..i], products), lines[i])
  }

  /** No line of the cart throws on the documents the lines before it
      left. */
  predicate RunsClean(products: map<Id, Product>, lines: seq<CartLine>) {
    forall i :: 0 <= i < |lines| ==> !LineFails(ApplyLines(lines[..i], products), lines[i])
  }

  /** The writes of the first `i` lines are the write of the first line
      followed by the writes of the next `i - 1`. */
  lemma PrefixStep(lines: seq<CartLine>, products: map<Id, Product>)
    requires |lines| > 0
    ensures ApplyLines(lines[..0], products) == products
    ensures forall i :: 1 <= i <= |lines| ==>
      ApplyLines(lines[..i], products) == ApplyLines(lines[1..][..i - 1], SaveLine(products, lines[0]))
  {
    assert lines[..0] == [];
    forall i | 1 <= i <= |lines|
      ensures ApplyLines(lines[..i], products) == ApplyLines(lines[1..][..i - 1], SaveLine(products, lines[0]))
    {
      assert lines[..i][0] == lines[0];
      assert lines[..i][1..] == lines[1..][..i - 1];
    }
  }

  /** `k` is the product of some line. */
  predicate Mentions(lines: seq<CartLine>, k: Id) {
    exists i :: 0 <= i < |lines| && lines[i].product == k
  }

  /** With one line per product, the loop's writes leave each line's
      product with its loaded stock minus the line's quantity, and every
      other product as it was. */
  lemma {:induction false} ApplyLinesStock(lines: seq<CartLine>, products: map<Id, Product>)
    requires Resolved(lines, products) && DistinctProducts(lines)
    ensures forall i :: 0 <= i < |lines| ==>
      ApplyLines(lines, products)[lines[i].product] == Decrement(products[lines[i].product], lines[i].quantity)
    ensures forall k :: k in products && !Mentions(lines, k) ==> ApplyLines(lines, products)[k] == products[k]
  {
    if |lines| > 0 {
      var l := lines[0];
      var next := SaveLine(products, l);
      var rest := lines[1..];
      DistinctTail(lines);
      MentionsTail(lines);
      forall i | 0 <= i < |rest| ensures rest[i].product in next && next[rest[i].product] == products[rest[i].product] {
        assert rest[i] == lines[i + 1];
      }
      ApplyLinesStock(rest, next);
      var r := ApplyLines(lines, products);
      assert r == ApplyLines(rest, next);
      assert Mentions(lines, l.product) by { assert lines[0].product == l.product; }
      forall i | 0 <= i < |lines|
        ensures r[lines[i].product] == Decrement(products[lines[i].product], lines[i].quantity)
      {
        if i > 0 {
          assert lines[i] == rest[i - 1];
        }
      }
    }
  }

  /** Where the loop of `createOrder` ends: either every line was priced and
      saved, or line `at` threw and the writes of the lines before it
      remain. */
  datatype Placement =
    | Placed(products: map<Id, Product>, items: seq<OrderItem>, total: int)
    | Aborted(products: map<Id, Product>, at: nat)

  /** The loop over the cart lines (controller/order.js:34-49), starting
      from the product documents `populate` loaded. Each line adds
      `price * quantity` to the total, appends a frozen item, and saves its
      product's document with the stock lowered, before the next line runs.
      No stock check precedes the write; only the `min: 0` validator of the
      save stops a line, after the earlier lines have been saved. The
      decrements never change a price, so every item carries the price the
      product had when it was loaded. `PlaceLinesSpec` states what the loop
      computes. */
  function PlaceLines(lines: seq<CartLine>, products: map<Id, Product>): (r: Placement)
  {
    if |lines| == 0 then Placed(products, [], 0)
    else
      var l := lines[0];
      if LineFails(products, l) then Aborted(products, 0)
      else
        var p := products[l.product];
        match PlaceLines(lines[1..], SaveLine(products, l))
        case Aborted(ps, k) => Aborted(ps, k + 1)
        case Placed(ps, items, total) =>
          Placed(ps, [OrderItem(l.product, l.quantity, p.price)] + items, p.price * l.quantity + total)
  }

  /** What the loop promises: it completes exactly when no line throws on
      the documents the lines before it left; then its writes, its items
      and its total are those of the whole cart at the loaded prices;
      otherwise the first line that throws stops it, and the writes of the
      lines before that one remain. */
  lemma PlaceLinesSpec(lines: seq<CartLine>, products: map<Id, Product>)
    ensures PlaceLines(lines, products).Placed? <==> RunsClean(products, lines)
    ensures
      var r := PlaceLines(lines, products);
      r.Placed? ==>
        && Resolved(lines, products)
        && r.products == ApplyLines(lines, products)
        && r.total == LinesTotal(lines, products)
        && |r.items| == |lines|
        && forall i :: 0 <= i < |lines| ==>
             r.items[i] == OrderItem(lines[i].product, lines[i].quantity, products[lines[i].product].price)
    ensures
      var r := PlaceLines(lines, products);
      r.Aborted? ==> FirstFailure(products, lines, r.at) && r.products == ApplyLines(lines[..r.at], products)
  {
    PlaceLinesRuns(lines, products);
    PlaceLinesPlaced(lines, products);
    PlaceLinesAborted(lines, products);
  }

  /** The loop completes exactly when no line throws. */
  lemma {:induction false} PlaceLinesRuns(lines: seq<CartLine>, products: map<Id, Product>)
    ensures PlaceLines(lines, products).Placed? <==> RunsClean(products, lines)
  {
    if |lines| > 0 {
      if LineFails(products, lines[0]) {
        FirstLineFails(lines, products);
      } else {
        PlaceLinesRuns(lines[1..], SaveLine(products, lines[0]));
        RunsCleanStep(lines, products);
      }
    }
  }

  /** Past a first line that does not throw, the cart runs clean exactly
      when the rest of it runs clean on the saved documents. */
  lemma RunsCleanStep(lines: seq<CartLine>, products: map<Id, Product>)
    requires |lines| > 0 && !LineFails(products, lines[0])
    ensures RunsClean(products, lines) <==> RunsClean(SaveLine(products, lines[0]), lines[1..])
  {
    var next := SaveLine(products, lines[0]);
    var rest := lines[1..];
    PrefixStep(lines, products);
    if RunsClean(next, rest) {
      forall i | 1 <= i < |lines| ensures !LineFails(ApplyLines(lines[..i], products), lines[i]) {
        assert lines[i] == rest[i - 1];
      }
    }
    if RunsClean(products, lines) {
      forall i | 0 <= i < |rest| ensures !LineFails(ApplyLines(rest[..i], next), rest[i]) {
        assert lines[i + 1] == rest[i];
      }
    }
  }

  /** A completed loop wrote, priced and totalled the whole cart. */
  lemma {:induction false} PlaceLinesPlaced(lines: seq<CartLine>, products: map<Id, Product>)
    ensures
      var r := PlaceLines(lines, products);
      r.Placed? ==>
        && Resolved(lines, products)
        && r.products == ApplyLines(lines, products)
        && r.total == LinesTotal(lines, products)
        && |r.items| == |lines|
        && forall i :: 0 <= i < |lines| ==>
             r.items[i] == OrderItem(lines[i].product, lines[i].quantity, products[lines[i].product].price)
  {
    if |lines| > 0 && !LineFails(products, lines[0]) {
      var next := SaveLine(products, lines[0]);
      var rest := PlaceLines(lines[1..], next);
      if rest.Placed? {
        PlaceLinesPlaced(lines[1..], next);
        PlacedStepPrices(lines, products, rest.items);
        RestTotal(lines, products, rest.total);
      }
    }
  }

  /** A stopped loop stopped at the first line that throws, with the writes
      of the lines before it. */
  lemma {:induction false} PlaceLinesAborted(lines: seq<CartLine>, products: map<Id, Product>)
    ensures
      var r := PlaceLines(lines, products);
      r.Aborted? ==> FirstFailure(products, lines, r.at) && r.products == ApplyLines(lines[..r.at], products)
  {
    if |lines| > 0 {
      if LineFails(products, lines[0]) {
        FirstLineFails(lines, products);
      } else {
        var next := SaveLine(products, lines[0]);
        var rest := PlaceLines(lines[1..], next);
        if rest.Aborted? {
          PlaceLinesAborted(lines[1..], next);
          AbortedStep(lines, products, rest.at);
        }
      }
    }
  }

  /** A first line that throws is the first failure, with nothing written. */
  lemma FirstLineFails(lines: seq<CartLine>, products: map<Id, Product>)
    requires |lines| > 0 && LineFails(products, lines[0])
    ensures FirstFailure(products, lines, 0) && ApplyLines(lines[..0], products) == products
    ensures LineFails(ApplyLines(lines[..0], products), lines[0])
  {
    assert lines[..0] == [];
  }

  /** A line that throws later in the cart, once the first line has been
      saved, is the first to throw in the whole cart. */
  lemma AbortedStep(lines: seq<CartLine>, products: map<Id, Product>, k: int)
    requires |lines| > 0 && !LineFails(products, lines[0])
    requires FirstFailure(SaveLine(products, lines[0]), lines[1..], k)
    ensures FirstFailure(products, lines, k + 1)
    ensures k + 1 < |lines| && LineFails(ApplyLines(lines[..k + 1], products), lines[k + 1])
    ensures ApplyLines(lines[..k + 1], products) == ApplyLines(lines[1..][..k], SaveLine(products, lines[0]))
  {
    PrefixStep(lines, products);
    forall i | 1 <= i < k + 1 ensures !LineFails(ApplyLines(lines[..i], products), lines[i]) {
      assert lines[i] == lines[1..][i - 1];
    }
    assert lines[k + 1] == lines[1..][k];
  }

  /** The items of the rest of the cart, priced on the saved documents,
      carry the prices of the loaded documents. */
  lemma PlacedStepPrices(lines: seq<CartLine>, products: map<Id, Product>, items: seq<OrderItem>)
    requires |lines| > 0 && lines[0].product in products
    requires
      var next := SaveLine(products, lines[0]);
      var rest := lines[1..];
      && Resolved(rest, next)
      && |items| == |rest|
      && forall i :: 0 <= i < |rest| ==>
           items[i] == OrderItem(rest[i].product, rest[i].quantity, next[rest[i].product].price)
    ensures Resolved(lines[1..], products)
    ensures
      var l := lines[0];
      var all := [OrderItem(l.product, l.quantity, products[l.product].price)] + items;
      && |all| == |lines|
      && forall i :: 0 <= i < |lines| ==>
           all[i] == OrderItem(lines[i].product, lines[i].quantity, products[lines[i].product].price)
  {
    var next := SaveLine(products, lines[0]);
    var rest := lines[1..];
    var l := lines[0];
    var all := [OrderItem(l.product, l.quantity, products[l.product].price)] + items;
    forall i | 0 <= i < |lines|
      ensures all[i] == OrderItem(lines[i].product, lines[i].quantity, products[lines[i].product].price)
    {
      if i > 0 {
        var j := i - 1;
        assert lines[i] == rest[j];
        assert all[i] == items[j];
      }
    }
  }

  /** The total of the rest of the cart on the saved documents, after the
      first line's subtotal, is the cart total on the loaded documents. */
  lemma RestTotal(lines: seq<CartLine>, products: map<Id, Product>, total: int)
    requires |lines| > 0 && lines[0].product in products
    requires Resolved(lines[1..], products) && Resolved(lines[1..], SaveLine(products, lines[0]))
    requires total == LinesTotal(lines[1..], SaveLine(products, lines[0]))
    ensures Resolved(lines, products)
    ensures products[lines[0].product].price * lines[0].quantity + total == LinesTotal(lines, products)
  {
    ResolvedCons(lines, products);
    SaveLineTotal(lines[1..], products, lines[0]);
    assert LinesTotal(lines, products)
        == products[lines[0].product].price * lines[0].quantity + LinesTotal(lines[1..], products);
  }

  /** A cart resolves when its first line and the rest of it do. */
  lemma ResolvedCons(lines: seq<CartLine>, products: map<Id, Product>)
    requires |lines| > 0 && lines[0].product in products && Resolved(lines[1..], products)
    ensures Resolved(lines, products)
  {
    forall i | 1 <= i < |lines| ensures lines[i].product in products {
      assert lines[i] == lines[1..][i - 1];
    }
  }

  /** Saving a line changes no price, so no cart total. */
  lemma {:induction false} SaveLineTotal(lines: seq<CartLine>, products: map<Id, Product>, l: CartLine)
    requires Resolved(lines, products)
    ensures Resolved(lines, SaveLine(products, l))
    ensures LinesTotal(lines, SaveLine(products, l)) == LinesTotal(lines, products)
  {
    if |lines| > 0 {
      var next := SaveLine(products, l);
      assert next[lines[0].product].price == products[lines[0].product].price;
      assert Resolved(lines[1..], products) by {
        forall i | 0 <= i < |lines| - 1 ensures lines[1..][i].product in products {
          assert lines[1..][i] == lines[i + 1];
        }
      }
      SaveLineTotal(lines[1..], products, l);
    }
  }

  /** The loop and the corrected reservation lower the stock the same way:
      wherever the loop runs to completion, reserving the same cart on the
      same documents succeeds with the same writes; and over a valid
      catalog, wherever reserving succeeds, the loop runs to completion. */
  lemma {:induction false} PlaceLinesReserves(lines: seq<CartLine>, products: map<Id, Product>)
    ensures PlaceLines(lines, products).Placed? ==>
      && Resolved(lines, products)
      && Reserve(products, lines) == Some(PlaceLines(lines, products).products)
    ensures Resolved(lines, products) && AllProductsValid(products) && Reserve(products, lines).Some? ==>
      PlaceLines(lines, products).Placed?
  {
    if |lines| > 0 && lines[0].product in products {
      var l := lines[0];
      var p := products[l.product];
      var next := SaveLine(products, l);
      if !LineFails(products, l) {
        PlaceLinesReserves(lines[1..], next);
        PlaceLinesHead(lines, products);
        if Resolved(lines, products) {
          ReserveHead(lines, products);
        }
      } else if AllProductsValid(products) && Resolved(lines, products) {
        WithStock(p, p.stock - l.quantity);
        assert Reserve(products, lines).None?;
      }
    }
  }

  /** Once the first line is saved, the loop goes on as the loop over the
      rest of the cart on the saved documents. */
  lemma PlaceLinesHead(lines: seq<CartLine>, products: map<Id, Product>)
    requires |lines| > 0 && !LineFails(products, lines[0])
    ensures
      var rest := PlaceLines(lines[1..], SaveLine(products, lines[0]));
      && PlaceLines(lines, products).Placed? == rest.Placed?
      && PlaceLines(lines, products).products == rest.products
  {
  }

  /** A line the loop saves passes the stock check of `Reserve`, which then
      goes on from the same documents; over a valid catalog they stay valid. */
  lemma ReserveHead(lines: seq<CartLine>, products: map<Id, Product>)
    requires Resolved(lines, products) && |lines| > 0 && !LineFails(products, lines[0])
    ensures Resolved(lines[1..], SaveLine(products, lines[0]))
    ensures Reserve(products, lines) == Reserve(SaveLine(products, lines[0]), lines[1..])
    ensures AllProductsValid(products) ==> AllProductsValid(SaveLine(products, lines[0]))
  {
    var next := SaveLine(products, lines[0]);
    forall i | 0 <= i < |lines| - 1 ensures lines[1..][i].product in next {
      assert lines[1..][i] == lines[i + 1];
    }
  }

  /** `cartModel.deleteOne({ userId })` (controller/order.js:65). The cart
      schema names its owner `user`; no cart document has a `userId` path,
      so the filter matches no document and no cart is deleted. */
  function DeleteOneByUserId(carts: map<Id, Cart>, userId: Id): (r: map<Id, Cart>)
    ensures r.Keys == carts.Keys
    ensures forall u :: CartOf(r, u) == CartOf(carts, u)
  {
    carts
  }

  /** `createOrder` as written. */
  function CreateOrder(db: Db, user: Id, shippingAddress: Option<AddressInput>, paymentMethod: Option<string>,
                       newId: Id, now: nat): (r: Step<Order>)
    requires newId !in db.orders
    ensures shippingAddress.None? || !TruthyText(paymentMethod) ==>
      r == Refuse(400, MissingFieldsMessage, db)
    ensures shippingAddress.Some? && TruthyText(paymentMethod)
            && (CartOf(db.carts, user).None? || db.carts[CartOf(db.carts, user).value].items == []) ==>
      r == Refuse(400, EmptyCartMessage, db)
    ensures r.db.users == db.users && r.db.categories == db.categories && r.db.reviews == db.reviews
    ensures r.db.carts == db.carts
    ensures r.reply.Ok? ==> r.reply.code == 201 && r.db.orders == db.orders[newId := r.reply.value]
    ensures r.reply.Fail? ==> r.db.orders == db.orders
    ensures r.reply.Fail? ==> r.reply.code == 400 || r.reply.code == ServerError
    ensures r.reply.Fail? && r.reply.code == 400 ==> r.db == db
  {
    if shippingAddress.None? || !TruthyText(paymentMethod) then
      Refuse(400, MissingFieldsMessage, db)
    else match CartOf(db.carts, user)
      case None => Refuse(400, EmptyCartMessage, db)
      case Some(cid) =>
        var lines := db.carts[cid].items;
        if |lines| == 0 then Refuse(400, EmptyCartMessage, db)
        else match PlaceLines(lines, db.products)
          case Aborted(ps, _) => Refuse(ServerError, CreateErrorMessage, db.(products := ps))
          case Placed(ps, items, total) =>
            SaveOrder(db.(products := ps), user, items, total, ParsePaymentMethod(paymentMethod.value),
                      BuildAddress(shippingAddress.value), newId, now)
  }

  /** The end of `createOrder` once every line was saved: the order is built
      from the priced items, checked by its validators (a payment method
      outside the enum or an incomplete address fails them too), inserted,
      and the cart deletion is issued. */
  function SaveOrder(db: Db, user: Id, items: seq<OrderItem>, total: int, pm: Option<PaymentMethod>,
                     address: Option<ShippingAddress>, newId: Id, now: nat): (r: Step<Order>)
    requires newId !in db.orders
    ensures r.reply.Ok? <==>
      && pm.Some? && address.Some?
      && ValidOrder(Order(user, items, total, pm.value, DefaultPaymentStatus, DefaultOrderStatus, address.value, now))
    ensures r.reply.Ok? ==>
      && r.reply == Ok(201, Order(user, items, total, pm.value, DefaultPaymentStatus, DefaultOrderStatus,
                                  address.value, now))
      && r.db == db.(orders := db.orders[newId := r.reply.value], carts := DeleteOneByUserId(db.carts, user))
    ensures r.reply.Fail? ==> r == Refuse(ServerError, CreateErrorMessage, db)
    ensures r.db == db.(orders := r.db.orders)
  {
    match (pm, address)
    case (Some(m), Some(a)) =>
      // `status: 'pending'` is not a schema path; the two status paths
      // take their defaults.
      var o := Order(user, items, total, m, DefaultPaymentStatus, DefaultOrderStatus, a, now);
      if !ValidOrder(o) then Refuse(ServerError, CreateErrorMessage, db)
      else
        var db2 := db.(orders := db.orders[newId := o]);
        Done(201, o, db2.(carts := DeleteOneByUserId(db2.carts, user)))
    case _ => Refuse(ServerError, CreateErrorMessage, db)
  }

  /** Past the request and cart checks, a loop that throws makes
      `createOrder` answer 500 with the loop's writes kept. */
  lemma CreateOrderAborts(db: Db, user: Id, shippingAddress: Option<AddressInput>, paymentMethod: Option<string>,
                          newId: Id, now: nat, ps: map<Id, Product>)
    requires newId !in db.orders
    requires shippingAddress.Some? && TruthyText(paymentMethod) && CartOf(db.carts, user).Some?
    requires
      var lines := db.carts[CartOf(db.carts, user).value].items;
      |lines| > 0 && PlaceLines(lines, db.products).Aborted? && PlaceLines(lines, db.products).products == ps
    ensures CreateOrder(db, user, shippingAddress, paymentMethod, newId, now)
         == Refuse(ServerError, CreateErrorMessage, db.(products := ps))
  {
  }

  /** Past the request and cart checks, a loop that completes hands its
      writes, items and total to `SaveOrder`. */
  lemma CreateOrderSaves(db: Db, user: Id, shippingAddress: Option<AddressInput>, paymentMethod: Option<string>,
                         newId: Id, now: nat, ps: map<Id, Product>, items: seq<OrderItem>, total: int)
    requires newId !in db.orders
    requires shippingAddress.Some? && TruthyText(paymentMethod) && CartOf(db.carts, user).Some?
    requires
      var lines := db.carts[CartOf(db.carts, user).value].items;
      |lines| > 0 && PlaceLines(lines, db.products) == Placed(ps, items, total)
    ensures CreateOrder(db, user, shippingAddress, paymentMethod, newId, now)
         == SaveOrder(db.(products := ps), user, items, total, ParsePaymentMethod(paymentMethod.value),
                      BuildAddress(shippingAddress.value), newId, now)
  {
  }

  /** When `createOrder` succeeds: a complete request, a non-empty cart, no
      line whose product is gone or whose stock, as the earlier lines' saves
      left it, would go negative, a payment method in the enum, a complete
      address, and an order that passes its validators. */
  lemma CreateOrderOk(db: Db, user: Id, shippingAddress: Option<AddressInput>, paymentMethod: Option<string>,
                      newId: Id, now: nat)
    requires newId !in db.orders
    ensures CreateOrder(db, user, shippingAddress, paymentMethod, newId, now).reply.Ok? <==>
      && shippingAddress.Some? && TruthyText(paymentMethod)
      && CartOf(db.carts, user).Some?
      && var lines := db.carts[CartOf(db.carts, user).value].items;
      && |lines| > 0
      && RunsClean(db.products, lines)
      && Resolved(lines, db.products)
      && ParsePaymentMethod(paymentMethod.value).Some? && BuildAddress(shippingAddress.value).Some?
      && ValidOrder(Draft(user, lines, db.products, ParsePaymentMethod(paymentMethod.value).value,
                          BuildAddress(shippingAddress.value).value, now))
  {
    if shippingAddress.Some? && TruthyText(paymentMethod) && CartOf(db.carts, user).Some? {
      var lines := db.carts[CartOf(db.carts, user).value].items;
      if |lines| > 0 {
        if RunsClean(db.products, lines) {
          CreateOrderPricedReply(db, user, shippingAddress, paymentMethod, newId, now);
        } else {
          CreateOrderThrowsReply(db, user, shippingAddress, paymentMethod, newId, now);
        }
      }
    }
  }

  /** Once every line of the loop has been saved, `createOrder` succeeds
      exactly when the payment method and the address parse and the order
      passes its validators. */
  lemma CreateOrderPricedReply(db: Db, user: Id, shippingAddress: Option<AddressInput>, paymentMethod: Option<string>,
                               newId: Id, now: nat)
    requires newId !in db.orders
    requires shippingAddress.Some? && TruthyText(paymentMethod) && CartOf(db.carts, user).Some?
    requires
      var lines := db.carts[CartOf(db.carts, user).value].items;
      && |lines| > 0
      && RunsClean(db.products, lines)
    ensures Resolved(db.carts[CartOf(db.carts, user).value].items, db.products)
    ensures
      var lines := db.carts[CartOf(db.carts, user).value].items;
      CreateOrder(db, user, shippingAddress, paymentMethod, newId, now).reply.Ok? <==>
        && ParsePaymentMethod(paymentMethod.value).Some? && BuildAddress(shippingAddress.value).Some?
        && ValidOrder(Draft(user, lines, db.products, ParsePaymentMethod(paymentMethod.value).value,
                            BuildAddress(shippingAddress.value).value, now))
  {
    var lines := db.carts[CartOf(db.carts, user).value].items;
    PlaceLinesRuns(lines, db.products);
    PlaceLinesPlaced(lines, db.products);
    var pl := PlaceLines(lines, db.products);
    assert pl.Placed?;
    assert pl.items == FreezeItems(lines, db.products);
    var pm := ParsePaymentMethod(paymentMethod.value);
    var address := BuildAddress(shippingAddress.value);
    assert CreateOrder(db, user, shippingAddress, paymentMethod, newId, now)
        == SaveOrder(db.(products := pl.products), user, pl.items, pl.total, pm, address, newId, now);
  }

  /** A line that makes the loop throw makes `createOrder` fail. */
  lemma CreateOrderThrowsReply(db: Db, user: Id, shippingAddress: Option<AddressInput>, paymentMethod: Option<string>,
                               newId: Id, now: nat)
    requires newId !in db.orders
    requires shippingAddress.Some? && TruthyText(paymentMethod) && CartOf(db.carts, user).Some?
    requires
      var lines := db.carts[CartOf(db.carts, user).value].items;
      !RunsClean(db.products, lines)
    ensures CreateOrder(db, user, shippingAddress, paymentMethod, newId, now).reply.Fail?
  {
    var lines := db.carts[CartOf(db.carts, user).value].items;
    PlaceLinesRuns(lines, db.products);
    assert PlaceLines(lines, db.products).Aborted?;
  }

  /** A successful `createOrder` stores one order for the caller whose
      items are the cart lines in cart order, each with the product's price
      at that moment, whose total is the cart total at those prices (and
      the sum of the frozen items), with the payment method as requested and
      both statuses at their schema defaults. */
  lemma CreateOrderSnapshot(db: Db, user: Id, shippingAddress: Option<AddressInput>, paymentMethod: Option<string>,
                            newId: Id, now: nat)
    requires newId !in db.orders
    requires CreateOrder(db, user, shippingAddress, paymentMethod, newId, now).reply.Ok?
    ensures CartOf(db.carts, user).Some?
    ensures
      var lines := db.carts[CartOf(db.carts, user).value].items;
      var o := CreateOrder(db, user, shippingAddress, paymentMethod, newId, now).reply.value;
      && |lines| > 0
      && Resolved(lines, db.products)
      && o.user == user
      && |o.items| == |lines|
      && (forall i :: 0 <= i < |lines| ==>
            o.items[i] == OrderItem(lines[i].product, lines[i].quantity, db.products[lines[i].product].price))
      && o.totalAmount == LinesTotal(lines, db.products)
      && o.totalAmount == ItemsTotal(o.items)
      && PaymentMethodName(o.paymentMethod) == paymentMethod.value
      && BuildAddress(shippingAddress.value) == Some(o.shippingAddress)
      && o.paymentStatus == Pending && o.orderStatus == Processing
      && o.createdAt == now
      && ValidOrder(o)
  {
    var cid := CartOf(db.carts, user).value;
    var lines := db.carts[cid].items;
    var pl := PlaceLines(lines, db.products);
    assert pl.Placed?;
    PlaceLinesPlaced(lines, db.products);
    ItemsMatchTotal(lines, db.products, pl.items);
  }

  /** Frozen items built line by line sum to the cart total. */
  lemma {:induction false} ItemsMatchTotal(lines: seq<CartLine>, snap: map<Id, Product>, items: seq<OrderItem>)
    requires Resolved(lines, snap) && |items| == |lines|
    requires forall i :: 0 <= i < |lines| ==>
      items[i] == OrderItem(lines[i].product, lines[i].quantity, snap[lines[i].product].price)
    ensures ItemsTotal(items) == LinesTotal(lines, snap)
  {
    if |lines| > 0 {
      assert forall i :: 0 <= i < |lines| - 1 ==> lines[1..][i] == lines[i + 1] && items[1..][i] == items[i + 1];
      ItemsMatchTotal(lines[1..], snap, items[1..]);
    }
  }

  /** A successful `createOrder` is the loop run to completion over the
      caller's non-empty cart: its stock writes and its priced items. */
  lemma CreateOrderPlaced(db: Db, user: Id, shippingAddress: Option<AddressInput>, paymentMethod: Option<string>,
                          newId: Id, now: nat)
    requires newId !in db.orders
    requires CreateOrder(db, user, shippingAddress, paymentMethod, newId, now).reply.Ok?
    ensures CartOf(db.carts, user).Some?
    ensures
      var lines := db.carts[CartOf(db.carts, user).value].items;
      var r := CreateOrder(db, user, shippingAddress, paymentMethod, newId, now);
      && |lines| > 0
      && PlaceLines(lines, db.products)
         == Placed(r.db.products, r.reply.value.items, r.reply.value.totalAmount)
  {
    var lines := db.carts[CartOf(db.carts, user).value].items;
    var pl := PlaceLines(lines, db.products);
    assert pl.Placed?;
    assert CreateOrder(db, user, shippingAddress, paymentMethod, newId, now)
        == SaveOrder(db.(products := pl.products), user, pl.items, pl.total, ParsePaymentMethod(paymentMethod.value),
                     BuildAddress(shippingAddress.value), newId, now);
  }

  /** With one line per product (the cart invariant), a successful
      `createOrder` lowers each ordered product's stock by exactly the
      ordered quantity and leaves every other product untouched. */
  lemma CreateOrderStock(db: Db, user: Id, shippingAddress: Option<AddressInput>, paymentMethod: Option<string>,
                         newId: Id, now: nat)
    requires newId !in db.orders
    requires AllCartsValid(db.carts)
    requires CreateOrder(db, user, shippingAddress, paymentMethod, newId, now).reply.Ok?
    ensures CartOf(db.carts, user).Some?
    ensures
      var lines := db.carts[CartOf(db.carts, user).value].items;
      var after := CreateOrder(db, user, shippingAddress, paymentMethod, newId, now).db.products;
      && (forall i :: 0 <= i < |lines| ==>
            && lines[i].product in db.products && lines[i].product in after
            && after[lines[i].product] == Decrement(db.products[lines[i].product], lines[i].quantity))
      && (forall k :: k in db.products && !Mentions(lines, k) ==> k in after && after[k] == db.products[k])
      && after.Keys == db.products.Keys
  {
    CreateOrderPlaced(db, user, shippingAddress, paymentMethod, newId, now);
    var cid := CartOf(db.carts, user).value;
    var lines := db.carts[cid].items;
    assert ValidCart(db.carts[cid]);
    PlaceLinesPlaced(lines, db.products);
    assert CreateOrder(db, user, shippingAddress, paymentMethod, newId, now).db.products
        == ApplyLines(lines, db.products);
    ApplyLinesStock(lines, db.products);
  }

  /** Finding, as written: a successful `createOrder` leaves the caller's
      cart in place with all its lines, because the delete filter names a
      path the cart schema does not have. */
  lemma CartSurvivesOrder(db: Db, user: Id, shippingAddress: Option<AddressInput>, paymentMethod: Option<string>,
                          newId: Id, now: nat)
    requires newId !in db.orders
    requires CreateOrder(db, user, shippingAddress, paymentMethod, newId, now).reply.Ok?
    ensures CartOf(db.carts, user).Some?
    ensures
      var r := CreateOrder(db, user, shippingAddress, paymentMethod, newId, now);
      && CartOf(r.db.carts, user) == CartOf(db.carts, user)
      && r.db.carts[CartOf(db.carts, user).value].items != []
  {
  }

  /** Finding, as written: the stock writes are not all-or-nothing. With a
      valid two-line cart whose first product has enough stock and whose
      second has too little, `createOrder` fails with status 500, creates no
      order, and the first product's stock has nevertheless been lowered. */
  lemma PartialDecrement(db: Db, user: Id, shippingAddress: Option<AddressInput>, paymentMethod: Option<string>,
                         newId: Id, now: nat)
    requires newId !in db.orders
    requires shippingAddress.Some? && TruthyText(paymentMethod)
    requires CartOf(db.carts, user).Some?
    requires
      var lines := db.carts[CartOf(db.carts, user).value].items;
      && |lines| == 2 && lines[0].product != lines[1].product
      && lines[0].product in db.products && lines[1].product in db.products
      && ValidProduct(db.products[lines[0].product]) && ValidProduct(db.products[lines[1].product])
      && 1 <= lines[0].quantity <= db.products[lines[0].product].stock
      && db.products[lines[1].product].stock < lines[1].quantity
    ensures
      var lines := db.carts[CartOf(db.carts, user).value].items;
      var r := CreateOrder(db, user, shippingAddress, paymentMethod, newId, now);
      && r.reply == Fail(ServerError, CreateErrorMessage)
      && r.db.orders == db.orders
      && lines[0].product in r.db.products
      && r.db.products[lines[0].product].stock == db.products[lines[0].product].stock - lines[0].quantity
      && r.db.products[lines[0].product].stock < db.products[lines[0].product].stock
  {
    var lines := db.carts[CartOf(db.carts, user).value].items;
    var p0 := db.products[lines[0].product];
    WithStock(p0, p0.stock - lines[0].quantity);
    var next := SaveLine(db.products, lines[0]);
    assert next[lines[1].product] == db.products[lines[1].product];
    SecondLineThrows(lines, db.products);
    CreateOrderAborts(db, user, shippingAddress, paymentMethod, newId, now, next);
  }

  /** A two-line loop whose first line is saved and whose second then
      throws ends with the first line's write only. */
  lemma SecondLineThrows(lines: seq<CartLine>, products: map<Id, Product>)
    requires |lines| == 2 && !LineFails(products, lines[0])
    requires LineFails(SaveLine(products, lines[0]), lines[1])
    ensures PlaceLines(lines, products) == Aborted(SaveLine(products, lines[0]), 1)
  {
    var next := SaveLine(products, lines[0]);
    assert lines[1..][0] == lines[1];
    assert PlaceLines(lines[1..], next) == Aborted(next, 0);
  }

  /** The same finding through the order's own validators: a valid cart
      whose every line has enough stock, but a payment method outside the
      enum, makes the order save fail with status 500 after every line's
      stock has been lowered. */
  lemma BadPaymentMethodAfterStock(db: Db, user: Id, shippingAddress: Option<AddressInput>, paymentMethod: Option<string>,
                                   newId: Id, now: nat)
    requires newId !in db.orders
    requires shippingAddress.Some? && TruthyText(paymentMethod)
    requires ParsePaymentMethod(paymentMethod.value).None?
    requires AllCartsValid(db.carts) && AllProductsValid(db.products)
    requires CartOf(db.carts, user).Some?
    requires
      var lines := db.carts[CartOf(db.carts, user).value].items;
      && |lines| > 0 && Resolved(lines, db.products)
      && forall i :: 0 <= i < |lines| ==> lines[i].quantity <= db.products[lines[i].product].stock
    ensures
      var lines := db.carts[CartOf(db.carts, user).value].items;
      var r := CreateOrder(db, user, shippingAddress, paymentMethod, newId, now);
      && r.reply == Fail(ServerError, CreateErrorMessage)
      && r.db.orders == db.orders
      && forall i :: 0 <= i < |lines| ==>
           && lines[i].product in r.db.products
           && r.db.products[lines[i].product].stock == db.products[lines[i].product].stock - lines[i].quantity
  {
    var lines := db.carts[CartOf(db.carts, user).value].items;
    assert ValidCart(db.carts[CartOf(db.carts, user).value]);
    DistinctLinesInStock(lines, db.products);
    var pl := PlaceLines(lines, db.products);
    CreateOrderSaves(db, user, shippingAddress, paymentMethod, newId, now, pl.products, pl.items, pl.total);
  }

  /** Over a valid catalog, a cart with one line per product and enough
      stock on every line runs the loop to completion, lowering each line's
      product by exactly the line's quantity. */
  lemma DistinctLinesInStock(lines: seq<CartLine>, products: map<Id, Product>)
    requires AllProductsValid(products) && Resolved(lines, products) && DistinctProducts(lines)
    requires forall i :: 0 <= i < |lines| ==> lines[i].quantity <= products[lines[i].product].stock
    ensures PlaceLines(lines, products).Placed?
    ensures forall i :: 0 <= i < |lines| ==>
      && lines[i].product in PlaceLines(lines, products).products
      && PlaceLines(lines, products).products[lines[i].product] == Decrement(products[lines[i].product], lines[i].quantity)
  {
    ReserveDistinct(products, lines);
    PlaceLinesReserves(lines, products);
  }

  /** The same finding on a cart with two lines of one product: both lines
      lower the one populated document, so with 5 in stock and lines of 3
      and 3 the second save fails with status 500 after the first has
      lowered the stock to 2, although each line on its own is in stock.
      The corrected workflow refuses the same request and writes nothing. */
  lemma SharedDocumentOverdraw(db: Db, user: Id, shippingAddress: Option<AddressInput>, paymentMethod: Option<string>,
                               newId: Id, now: nat)
    requires newId !in db.orders
    requires shippingAddress.Some? && TruthyText(paymentMethod)
    requires CartOf(db.carts, user).Some?
    requires
      var lines := db.carts[CartOf(db.carts, user).value].items;
      && |lines| == 2 && lines[0].product == lines[1].product
      && lines[0].product in db.products && ValidProduct(db.products[lines[0].product])
      && 0 <= lines[0].quantity <= db.products[lines[0].product].stock
      && lines[1].quantity <= db.products[lines[0].product].stock
      && db.products[lines[0].product].stock < lines[0].quantity + lines[1].quantity
    ensures
      var lines := db.carts[CartOf(db.carts, user).value].items;
      var r := CreateOrder(db, user, shippingAddress, paymentMethod, newId, now);
      && r.reply == Fail(ServerError, CreateErrorMessage)
      && r.db.orders == db.orders
      && lines[0].product in r.db.products
      && r.db.products[lines[0].product].stock == db.products[lines[0].product].stock - lines[0].quantity
    ensures PlaceOrder(db, user, shippingAddress, paymentMethod, newId, now).reply.Fail?
    ensures PlaceOrder(db, user, shippingAddress, paymentMethod, newId, now).db == db
  {
    var lines := db.carts[CartOf(db.carts, user).value].items;
    SharedDocumentLoop(lines, db.products);
    CreateOrderAborts(db, user, shippingAddress, paymentMethod, newId, now, SaveLine(db.products, lines[0]));
  }

  /** Two lines of one product, in stock one by one but not together: the
      loop saves the first line and throws on the second, and reserving
      fails. */
  lemma SharedDocumentLoop(lines: seq<CartLine>, products: map<Id, Product>)
    requires |lines| == 2 && lines[0].product == lines[1].product
    requires lines[0].product in products && ValidProduct(products[lines[0].product])
    requires 0 <= lines[0].quantity <= products[lines[0].product].stock
    requires products[lines[0].product].stock < lines[0].quantity + lines[1].quantity
    ensures PlaceLines(lines, products) == Aborted(SaveLine(products, lines[0]), 1)
    ensures SaveLine(products, lines[0])[lines[0].product].stock == products[lines[0].product].stock - lines[0].quantity
    ensures Resolved(lines, products) && Reserve(products, lines).None?
  {
    var p := products[lines[0].product];
    WithStock(p, p.stock - lines[0].quantity);
    var next := SaveLine(products, lines[0]);
    SecondLineThrows(lines, products);
    assert Resolved(lines, products) by {
      assert lines[1].product == lines[0].product;
    }
    ReserveHead(lines, products);
    assert lines[1..][0] == lines[1];
    assert Reserve(next, lines[1..]).None?;
  }

  // ---------------------------------------------------------------------
  // The corrected workflow.

  const InvalidOrderMessage := "Invalid payment method or shipping address"
  const ProductGoneMessage := "Product not found"
  const InsufficientStockMessage := "Insufficient stock"

  predicate StocksNonNegative(products: map<Id, Product>) {
    forall k :: k in products ==> products[k].stock >= 0
  }

  /** Lower the stock of every line's product, line after line, on the
      current documents; None as soon as a line asks for more than its
      product has left. */
  function Reserve(products: map<Id, Product>, lines: seq<CartLine>): (r: Option<map<Id, Product>>)
    requires Resolved(lines, products)
    ensures r.Some? ==> r.value.Keys == products.Keys
    ensures r.Some? ==> forall k :: k in products && !Mentions(lines, k) ==> r.value[k] == products[k]
    ensures r.Some? && StocksNonNegative(products) ==> StocksNonNegative(r.value)
  {
    if |lines| == 0 then Some(products)
    else
      var l := lines[0];
      var p := products[l.product];
      if p.stock < l.quantity then None
      else
        var next := products[l.product := Decrement(p, l.quantity)];
        assert Resolved(lines[1..], next) by {
          forall i | 0 <= i < |lines| - 1 ensures lines[1..][i].product in next {
            assert lines[1..][i] == lines[i + 1];
          }
        }
        MentionsTail(lines);
        Reserve(next, lines[1..])
  }

  /** A product named by a later line is named by the whole cart. */
  lemma MentionsTail(lines: seq<CartLine>)
    requires |lines| > 0
    ensures forall k :: Mentions(lines[1..], k) ==> Mentions(lines, k)
  {
    forall k | Mentions(lines[1..], k) ensures Mentions(lines, k) {
      var i :| 0 <= i < |lines| - 1 && lines[1..][i].product == k;
      assert lines[i + 1].product == k;
    }
  }

  /** With one line per product, the first line's product appears in no
      later line. */
  lemma DistinctTail(lines: seq<CartLine>)
    requires |lines| > 0 && DistinctProducts(lines)
    ensures DistinctProducts(lines[1..])
    ensures !Mentions(lines[1..], lines[0].product)
  {
    forall i | 0 <= i < |lines| - 1 ensures lines[1..][i].product != lines[0].product {
      assert lines[1..][i] == lines[i + 1];
    }
  }

  /** With one line per product, reserving succeeds exactly when every line's
      product has at least the line's quantity in stock, and then lowers each
      of them by exactly that quantity. */
  lemma {:induction false} ReserveDistinct(products: map<Id, Product>, lines: seq<CartLine>)
    requires Resolved(lines, products) && DistinctProducts(lines)
    ensures Reserve(products, lines).Some? <==>
      forall i :: 0 <= i < |lines| ==> products[lines[i].product].stock >= lines[i].quantity
    ensures Reserve(products, lines).Some? ==>
      forall i :: 0 <= i < |lines| ==>
        Reserve(products, lines).value[lines[i].product] == Decrement(products[lines[i].product], lines[i].quantity)
  {
    if |lines| > 0 {
      var l := lines[0];
      var p := products[l.product];
      var rest := lines[1..];
      if p.stock >= l.quantity {
        var next := products[l.product := Decrement(p, l.quantity)];
        ReserveStep(products, lines);
        ReserveDistinct(next, rest);
        if Reserve(next, rest).Some? {
          var m := Reserve(next, rest).value;
          forall i | 0 <= i < |lines|
            ensures products[lines[i].product].stock >= lines[i].quantity
            ensures m[lines[i].product] == Decrement(products[lines[i].product], lines[i].quantity)
          {
            if i > 0 {
              assert lines[i] == rest[i - 1];
            } else {
              assert m[l.product] == next[l.product];
            }
          }
        } else {
          var k :| 0 <= k < |rest| && next[rest[k].product].stock < rest[k].quantity;
          assert lines[k + 1] == rest[k];
        }
      } else {
        assert Reserve(products, lines).None?;
      }
    }
  }

  /** One step of `Reserve` over a cart with one line per product: the first
      line's product is lowered, and the rest of the cart sees every other
      product as it was. */
  lemma ReserveStep(products: map<Id, Product>, lines: seq<CartLine>)
    requires Resolved(lines, products) && DistinctProducts(lines)
    requires |lines| > 0 && products[lines[0].product].stock >= lines[0].quantity
    ensures
      var next := products[lines[0].product := Decrement(products[lines[0].product], lines[0].quantity)];
      && Resolved(lines[1..], next)
      && DistinctProducts(lines[1..])
      && !Mentions(lines[1..], lines[0].product)
      && Reserve(products, lines) == Reserve(next, lines[1..])
      && forall i :: 0 <= i < |lines| - 1 ==> next[lines[1..][i].product] == products[lines[1..][i].product]
  {
    var rest := lines[1..];
    DistinctTail(lines);
    forall i | 0 <= i < |rest| ensures rest[i].product != lines[0].product {
      assert rest[i] == lines[i + 1];
    }
  }

  /** The frozen line items of an order placed from `lines` at the catalog's
      current prices. */
  function FreezeItems(lines: seq<CartLine>, products: map<Id, Product>): (items: seq<OrderItem>)
    requires Resolved(lines, products)
    ensures |items| == |lines|
    ensures forall i :: 0 <= i < |lines| ==>
      items[i] == OrderItem(lines[i].product, lines[i].quantity, products[lines[i].product].price)
  {
    seq(|lines|, i requires 0 <= i < |lines| =>
      OrderItem(lines[i].product, lines[i].quantity, products[lines[i].product].price))
  }

  /** `createOrder` as it evidently means to behave: every check (request,
      cart, order validators, products present, stock sufficient) runs
      before the first write, and success writes the stock, the order and
      the cart deletion together. */
  function PlaceOrder(db: Db, user: Id, shippingAddress: Option<AddressInput>, paymentMethod: Option<string>,
                      newId: Id, now: nat): (r: Step<Order>)
    requires newId !in db.orders
    ensures r.reply.Fail? ==> r.db == db
    ensures r.reply.Ok? ==> r.reply.code == 201 && r.db.orders == db.orders[newId := r.reply.value]
    ensures r.db.users == db.users && r.db.categories == db.categories && r.db.reviews == db.reviews
    ensures r.reply.Ok? ==>
      && CartOf(db.carts, user).Some?
      && r.db.carts == db.carts - {CartOf(db.carts, user).value}
    ensures r.reply.Ok? && StocksNonNegative(db.products) ==> StocksNonNegative(r.db.products)
    ensures r.db.products.Keys == db.products.Keys
    ensures r.reply.Ok? <==>
      && shippingAddress.Some? && TruthyText(paymentMethod)
      && CartOf(db.carts, user).Some?
      && var lines := db.carts[CartOf(db.carts, user).value].items;
      && |lines| > 0
      && ParsePaymentMethod(paymentMethod.value).Some? && BuildAddress(shippingAddress.value).Some?
      && Resolved(lines, db.products)
      && ValidOrder(Draft(user, lines, db.products, ParsePaymentMethod(paymentMethod.value).value,
                          BuildAddress(shippingAddress.value).value, now))
      && Reserve(db.products, lines).Some?
  {
    if shippingAddress.None? || !TruthyText(paymentMethod) then
      Refuse(400, MissingFieldsMessage, db)
    else match CartOf(db.carts, user)
      case None => Refuse(400, EmptyCartMessage, db)
      case Some(cid) =>
        PlaceCart(db, user, cid, ParsePaymentMethod(paymentMethod.value), BuildAddress(shippingAddress.value),
                  newId, now)
  }

  /** The corrected workflow once the caller's cart is found: the cart, the
      parsed request and the catalog are checked, then `Checkout` decides. */
  function PlaceCart(db: Db, user: Id, cid: Id, pm: Option<PaymentMethod>, address: Option<ShippingAddress>,
                     newId: Id, now: nat): (r: Step<Order>)
    requires newId !in db.orders && cid in db.carts
    ensures r.reply.Fail? ==> r.db == db
    ensures r.reply.Ok? ==>
      && r.reply.code == 201
      && r.db == db.(products := r.db.products, orders := db.orders[newId := r.reply.value],
                     carts := db.carts - {cid})
    ensures r.reply.Ok? && StocksNonNegative(db.products) ==> StocksNonNegative(r.db.products)
    ensures r.db.products.Keys == db.products.Keys
    ensures r.reply.Ok? <==>
      && var lines := db.carts[cid].items;
      && |lines| > 0 && pm.Some? && address.Some?
      && Resolved(lines, db.products)
      && ValidOrder(Draft(user, lines, db.products, pm.value, address.value, now))
      && Reserve(db.products, lines).Some?
  {
    var lines := db.carts[cid].items;
    if |lines| == 0 then Refuse(400, EmptyCartMessage, db)
    else if pm.None? || address.None? then Refuse(400, InvalidOrderMessage, db)
    else if !Resolved(lines, db.products) then Refuse(404, ProductGoneMessage, db)
    else Checkout(db, cid, Draft(user, lines, db.products, pm.value, address.value, now), newId)
  }

  /** The order a cart turns into at the catalog's current prices. */
  function Draft(user: Id, lines: seq<CartLine>, products: map<Id, Product>, pm: PaymentMethod,
                 address: ShippingAddress, now: nat): (o: Order)
    requires Resolved(lines, products)
  {
    Order(user, FreezeItems(lines, products), LinesTotal(lines, products), pm,
          DefaultPaymentStatus, DefaultOrderStatus, address, now)
  }

  /** The last two checks of the corrected workflow and its single write:
      the order's validators, then the stock of every line; only when both
      pass are the stock, the order and the cart deletion written. */
  function Checkout(db: Db, cid: Id, o: Order, newId: Id): (r: Step<Order>)
    requires cid in db.carts && Resolved(db.carts[cid].items, db.products)
    ensures r.reply.Fail? ==> r.db == db
    ensures r.reply.Ok? ==>
      && r.reply == Ok(201, o)
      && Reserve(db.products, db.carts[cid].items).Some?
      && r.db == db.(products := Reserve(db.products, db.carts[cid].items).value,
                     orders := db.orders[newId := o], carts := db.carts - {cid})
    ensures r.reply == Fail(400, InvalidOrderMessage) <==> !ValidOrder(o)
    ensures r.reply == Fail(400, InsufficientStockMessage) <==>
      ValidOrder(o) && Reserve(db.products, db.carts[cid].items).None?
    ensures r.reply.Ok? <==> ValidOrder(o) && Reserve(db.products, db.carts[cid].items).Some?
  {
    if !ValidOrder(o) then Refuse(400, InvalidOrderMessage, db)
    else match Reserve(db.products, db.carts[cid].items)
      case None => Refuse(400, InsufficientStockMessage, db)
      case Some(ps) =>
        Done(201, o, db.(products := ps, orders := db.orders[newId := o], carts := db.carts - {cid}))
  }

  /** Finding, corrected: after a successful order the caller has no cart
      any more (one cart per user). */
  lemma PlaceOrderClearsCart(db: Db, user: Id, shippingAddress: Option<AddressInput>, paymentMethod: Option<string>,
                             newId: Id, now: nat)
    requires newId !in db.orders
    requires OneCartPerUser(db.carts)
    requires PlaceOrder(db, user, shippingAddress, paymentMethod, newId, now).reply.Ok?
    ensures CartOf(PlaceOrder(db, user, shippingAddress, paymentMethod, newId, now).db.carts, user).None?
  {
    var cid := CartOf(db.carts, user).value;
    var after := PlaceOrder(db, user, shippingAddress, paymentMethod, newId, now).db.carts;
    forall id | id in after ensures after[id].user != user {
      assert id in db.carts && id != cid;
    }
  }

  /** Once the request, the cart and the catalog pass their checks, the
      corrected workflow is decided by `Checkout`. */
  lemma PlaceOrderReachesCheckout(db: Db, user: Id, shippingAddress: Option<AddressInput>, paymentMethod: Option<string>,
                                  newId: Id, now: nat)
    requires newId !in db.orders
    requires shippingAddress.Some? && TruthyText(paymentMethod)
    requires ParsePaymentMethod(paymentMethod.value).Some? && BuildAddress(shippingAddress.value).Some?
    requires CartOf(db.carts, user).Some?
    requires
      var lines := db.carts[CartOf(db.carts, user).value].items;
      |lines| > 0 && Resolved(lines, db.products)
    ensures
      var cid := CartOf(db.carts, user).value;
      var o := Draft(user, db.carts[cid].items, db.products, ParsePaymentMethod(paymentMethod.value).value,
                     BuildAddress(shippingAddress.value).value, now);
      PlaceOrder(db, user, shippingAddress, paymentMethod, newId, now) == Checkout(db, cid, o, newId)
  {
    var cid := CartOf(db.carts, user).value;
    var lines := db.carts[cid].items;
    var pm := ParsePaymentMethod(paymentMethod.value);
    var address := BuildAddress(shippingAddress.value);
    assert !(shippingAddress.None? || !TruthyText(paymentMethod));
    assert CartOf(db.carts, user) == Some(cid);
    assert !(|lines| == 0) && !(pm.None? || address.None?) && Resolved(lines, db.products);
  }

  /** Finding, corrected: with a valid cart, a line asking for more than its
      product's stock makes the corrected workflow refuse with status 400
      and write nothing at all. */
  lemma PlaceOrderAtomicOnShortage(db: Db, user: Id, shippingAddress: Option<AddressInput>, paymentMethod: Option<string>,
                                   newId: Id, now: nat, j: nat)
    requires newId !in db.orders
    requires shippingAddress.Some? && TruthyText(paymentMethod)
    requires ParsePaymentMethod(paymentMethod.value).Some? && BuildAddress(shippingAddress.value).Some?
    requires AllCartsValid(db.carts) && AllProductsValid(db.products)
    requires CartOf(db.carts, user).Some?
    requires
      var lines := db.carts[CartOf(db.carts, user).value].items;
      && Resolved(lines, db.products)
      && j < |lines| && db.products[lines[j].product].stock < lines[j].quantity
    ensures PlaceOrder(db, user, shippingAddress, paymentMethod, newId, now)
         == Refuse(400, InsufficientStockMessage, db)
  {
    var cid := CartOf(db.carts, user).value;
    var lines := db.carts[cid].items;
    assert ValidCart(db.carts[cid]);
    var o := Draft(user, lines, db.products, ParsePaymentMethod(paymentMethod.value).value,
                   BuildAddress(shippingAddress.value).value, now);
    DraftValid(user, lines, db.products, ParsePaymentMethod(paymentMethod.value).value,
               BuildAddress(shippingAddress.value).value, now);
    ShortageRefused(db, cid, o, newId, j);
    PlaceOrderReachesCheckout(db, user, shippingAddress, paymentMethod, newId, now);
  }

  /** The corrected workflow places the order whenever the request is
      complete and the caller's valid cart, priced from a valid catalog, has
      enough stock on every line: the stored order is the cart's draft, each
      line's product loses exactly the line's quantity, and the cart is
      deleted. */
  lemma PlaceOrderSucceeds(db: Db, user: Id, shippingAddress: Option<AddressInput>, paymentMethod: Option<string>,
                           newId: Id, now: nat)
    requires newId !in db.orders
    requires shippingAddress.Some? && TruthyText(paymentMethod)
    requires ParsePaymentMethod(paymentMethod.value).Some? && BuildAddress(shippingAddress.value).Some?
    requires AllProductsValid(db.products)
    requires CartOf(db.carts, user).Some? && ValidCart(db.carts[CartOf(db.carts, user).value])
    requires
      var lines := db.carts[CartOf(db.carts, user).value].items;
      && |lines| > 0 && Resolved(lines, db.products)
      && forall i :: 0 <= i < |lines| ==> db.products[lines[i].product].stock >= lines[i].quantity
    ensures
      var cid := CartOf(db.carts, user).value;
      var lines := db.carts[cid].items;
      var r := PlaceOrder(db, user, shippingAddress, paymentMethod, newId, now);
      && r.reply.Ok?
      && r.reply.value == Draft(user, lines, db.products, ParsePaymentMethod(paymentMethod.value).value,
                                BuildAddress(shippingAddress.value).value, now)
      && r.reply.value.totalAmount == LinesTotal(lines, db.products)
      && (forall i :: 0 <= i < |lines| ==>
            && lines[i].product in r.db.products
            && r.db.products[lines[i].product] == Decrement(db.products[lines[i].product], lines[i].quantity))
      && r.db.carts == db.carts - {cid}
  {
    PlaceOrderReachesCheckout(db, user, shippingAddress, paymentMethod, newId, now);
    CartCheckoutSucceeds(db, user, ParsePaymentMethod(paymentMethod.value).value,
                         BuildAddress(shippingAddress.value).value, newId, now);
  }

  /** The checkout step of `PlaceOrderSucceeds`, on the draft of the
      caller's cart. */
  lemma CartCheckoutSucceeds(db: Db, user: Id, pm: PaymentMethod, address: ShippingAddress, newId: Id, now: nat)
    requires AllProductsValid(db.products)
    requires CartOf(db.carts, user).Some? && ValidCart(db.carts[CartOf(db.carts, user).value])
    requires
      var lines := db.carts[CartOf(db.carts, user).value].items;
      && Resolved(lines, db.products)
      && forall i :: 0 <= i < |lines| ==> db.products[lines[i].product].stock >= lines[i].quantity
    ensures
      var cid := CartOf(db.carts, user).value;
      var lines := db.carts[cid].items;
      var o := Draft(user, lines, db.products, pm, address, now);
      var r := Checkout(db, cid, o, newId);
      && r.reply.Ok?
      && r.reply.value == o
      && r.reply.value.totalAmount == LinesTotal(lines, db.products)
      && (forall i :: 0 <= i < |lines| ==>
            && lines[i].product in r.db.products
            && r.db.products[lines[i].product] == Decrement(db.products[lines[i].product], lines[i].quantity))
      && r.db.carts == db.carts - {cid}
  {
    var cid := CartOf(db.carts, user).value;
    var lines := db.carts[cid].items;
    DraftValid(user, lines, db.products, pm, address, now);
    CheckoutSucceeds(db, cid, Draft(user, lines, db.products, pm, address, now), newId);
  }

  /** A valid order over a cart with one line per product and enough stock
      on every line is written by `Checkout`, with each line's product
      lowered by exactly the line's quantity. */
  lemma CheckoutSucceeds(db: Db, cid: Id, o: Order, newId: Id)
    requires cid in db.carts && Resolved(db.carts[cid].items, db.products)
    requires DistinctProducts(db.carts[cid].items) && ValidOrder(o)
    requires forall i :: 0 <= i < |db.carts[cid].items| ==>
      db.products[db.carts[cid].items[i].product].stock >= db.carts[cid].items[i].quantity
    ensures
      var lines := db.carts[cid].items;
      var r := Checkout(db, cid, o, newId);
      && r.reply == Ok(201, o)
      && r.db.carts == db.carts - {cid}
      && r.db.orders == db.orders[newId := o]
      && r.db.products.Keys == db.products.Keys
      && forall i :: 0 <= i < |lines| ==>
           r.db.products[lines[i].product] == Decrement(db.products[lines[i].product], lines[i].quantity)
  {
    ReserveDistinct(db.products, db.carts[cid].items);
  }

  /** The draft of a cart with positive quantities, priced from a valid
      catalog, passes the order validators. */
  lemma DraftValid(user: Id, lines: seq<CartLine>, products: map<Id, Product>, pm: PaymentMethod,
                   address: ShippingAddress, now: nat)
    requires Resolved(lines, products) && PositiveQuantities(lines) && AllProductsValid(products)
    ensures ValidOrder(Draft(user, lines, products, pm, address, now))
  {
    var items := FreezeItems(lines, products);
    ItemsMatchTotal(lines, products, items);
    forall i | 0 <= i < |items| ensures items[i].quantity >= 1 && items[i].price >= 0 {
      assert ValidProduct(products[lines[i].product]);
    }
    ItemsTotalNonNegative(items);
  }

  /** A valid order over a cart with one line per product, one of whose
      lines asks for more than its product's stock, is refused by `Checkout`
      with nothing written. */
  lemma ShortageRefused(db: Db, cid: Id, o: Order, newId: Id, j: nat)
    requires cid in db.carts && Resolved(db.carts[cid].items, db.products)
    requires DistinctProducts(db.carts[cid].items) && ValidOrder(o)
    requires j < |db.carts[cid].items|
    requires db.products[db.carts[cid].items[j].product].stock < db.carts[cid].items[j].quantity
    ensures Checkout(db, cid, o, newId) == Refuse(400, InsufficientStockMessage, db)
  {
    ReserveDistinct(db.products, db.carts[cid].items);
  }

  /** The order a successful `createOrder` stores is the draft of the
      caller's cart under the requested payment method and address. */
  lemma CreateOrderIsDraft(db: Db, user: Id, shippingAddress: Option<AddressInput>, paymentMethod: Option<string>,
                           newId: Id, now: nat)
    requires newId !in db.orders
    requires CreateOrder(db, user, shippingAddress, paymentMethod, newId, now).reply.Ok?
    ensures CartOf(db.carts, user).Some?
    ensures shippingAddress.Some? && TruthyText(paymentMethod)
    ensures ParsePaymentMethod(paymentMethod.value).Some? && BuildAddress(shippingAddress.value).Some?
    ensures
      var lines := db.carts[CartOf(db.carts, user).value].items;
      && |lines| > 0 && Resolved(lines, db.products)
      && CreateOrder(db, user, shippingAddress, paymentMethod, newId, now).reply.value
         == Draft(user, lines, db.products, ParsePaymentMethod(paymentMethod.value).value,
                  BuildAddress(shippingAddress.value).value, now)
  {
    CreateOrderSnapshot(db, user, shippingAddress, paymentMethod, newId, now);
    var lines := db.carts[CartOf(db.carts, user).value].items;
    var o := CreateOrder(db, user, shippingAddress, paymentMethod, newId, now).reply.value;
    EnumRoundTrips(o.paymentMethod, o.paymentStatus, o.orderStatus);
    SnapshotIsDraft(o, user, lines, db.products, now);
  }

  /** An order whose fields are those of a cart's snapshot is that cart's
      draft under the order's own payment method and address. */
  lemma SnapshotIsDraft(o: Order, user: Id, lines: seq<CartLine>, products: map<Id, Product>, now: nat)
    requires Resolved(lines, products)
    requires o.user == user && |o.items| == |lines|
    requires forall i :: 0 <= i < |lines| ==>
      o.items[i] == OrderItem(lines[i].product, lines[i].quantity, products[lines[i].product].price)
    requires o.totalAmount == LinesTotal(lines, products)
    requires o.paymentStatus == Pending && o.orderStatus == Processing && o.createdAt == now
    ensures o == Draft(user, lines, products, o.paymentMethod, o.shippingAddress, now)
  {
    assert o.items == FreezeItems(lines, products);
  }

  /** Wherever `createOrder` succeeds, reserving the same cart succeeds and
      writes exactly the stock `createOrder` wrote. */
  lemma CreateOrderReserves(db: Db, user: Id, shippingAddress: Option<AddressInput>, paymentMethod: Option<string>,
                            newId: Id, now: nat)
    requires newId !in db.orders
    requires CreateOrder(db, user, shippingAddress, paymentMethod, newId, now).reply.Ok?
    ensures CartOf(db.carts, user).Some?
    ensures
      var lines := db.carts[CartOf(db.carts, user).value].items;
      && Resolved(lines, db.products)
      && Reserve(db.products, lines)
         == Some(CreateOrder(db, user, shippingAddress, paymentMethod, newId, now).db.products)
  {
    CreateOrderPlaced(db, user, shippingAddress, paymentMethod, newId, now);
    PlaceLinesReserves(db.carts[CartOf(db.carts, user).value].items, db.products);
  }

  /** Over a valid catalog, `createOrder` and the corrected workflow succeed
      on exactly the same requests: they differ in what a failure leaves
      behind, not in when they fail. */
  lemma CreateOrderOkLikePlaceOrder(db: Db, user: Id, shippingAddress: Option<AddressInput>,
                                    paymentMethod: Option<string>, newId: Id, now: nat)
    requires newId !in db.orders
    requires AllProductsValid(db.products)
    ensures CreateOrder(db, user, shippingAddress, paymentMethod, newId, now).reply.Ok?
        <==> PlaceOrder(db, user, shippingAddress, paymentMethod, newId, now).reply.Ok?
  {
    CreateOrderOk(db, user, shippingAddress, paymentMethod, newId, now);
    if shippingAddress.Some? && TruthyText(paymentMethod) && CartOf(db.carts, user).Some? {
      var lines := db.carts[CartOf(db.carts, user).value].items;
      PlaceLinesRuns(lines, db.products);
      PlaceLinesReserves(lines, db.products);
    }
  }

  /** The corrected workflow and `createOrder` agree
      whenever `createOrder` succeeds: the same order and the same stock,
      the only difference being the caller's cart, which is now deleted. */
  lemma PlaceOrderAgrees(db: Db, user: Id, shippingAddress: Option<AddressInput>, paymentMethod: Option<string>,
                         newId: Id, now: nat)
    requires newId !in db.orders
    requires CreateOrder(db, user, shippingAddress, paymentMethod, newId, now).reply.Ok?
    ensures CartOf(db.carts, user).Some?
    ensures
      var a := CreateOrder(db, user, shippingAddress, paymentMethod, newId, now);
      var b := PlaceOrder(db, user, shippingAddress, paymentMethod, newId, now);
      && b.reply == a.reply
      && b.db == a.db.(carts := db.carts - {CartOf(db.carts, user).value})
  {
    CreateOrderIsDraft(db, user, shippingAddress, paymentMethod, newId, now);
    CreateOrderSnapshot(db, user, shippingAddress, paymentMethod, newId, now);
    CreateOrderReserves(db, user, shippingAddress, paymentMethod, newId, now);
    PlaceOrderReachesCheckout(db, user, shippingAddress, paymentMethod, newId, now);
  }

  // ---------------------------------------------------------------------
  // updateOrderStatus

  const StatusRequiredMessage := "Order status or payment status is required"
  const InvalidOrderStatusMessage := "Invalid order status"
  const InvalidPaymentStatusMessage := "Invalid payment status"
  const OrderNotFoundMessage := "Order not found"

  /** A status field that was supplied (truthy) but names no enum value. */
  predicate BadOrderStatus(s: Option<string>) {
    TruthyText(s) && ParseOrderStatus(s.value).None?
  }

  predicate BadPaymentStatus(s: Option<string>) {
    TruthyText(s) && ParsePaymentStatus(s.value).None?
  }

  /** `updateOrderStatus`: a partial update of the two status paths. */
  function UpdateOrderStatus(db: Db, id: Id, orderStatus: Option<string>, paymentStatus: Option<string>): (r: Step<Order>)
    ensures r.reply.Fail? ==> r.db == db
    ensures r.reply.Fail? && r.reply.code == 400 <==>
      (!TruthyText(orderStatus) && !TruthyText(paymentStatus))
      || BadOrderStatus(orderStatus) || BadPaymentStatus(paymentStatus)
    ensures r.reply == Fail(404, OrderNotFoundMessage) <==>
      (TruthyText(orderStatus) || TruthyText(paymentStatus))
      && !BadOrderStatus(orderStatus) && !BadPaymentStatus(paymentStatus)
      && id !in db.orders
    ensures r.reply.Ok? <==>
      (TruthyText(orderStatus) || TruthyText(paymentStatus))
      && !BadOrderStatus(orderStatus) && !BadPaymentStatus(paymentStatus)
      && id in db.orders
    ensures r.reply.Ok? ==>
      var o := db.orders[id];
      var u := r.reply.value;
      && r.reply.code == 200
      && r.db == db.(orders := db.orders[id := u])
      && (TruthyText(orderStatus) ==> OrderStatusName(u.orderStatus) == orderStatus.value)
      && (!TruthyText(orderStatus) ==> u.orderStatus == o.orderStatus)
      && (TruthyText(paymentStatus) ==> PaymentStatusName(u.paymentStatus) == paymentStatus.value)
      && (!TruthyText(paymentStatus) ==> u.paymentStatus == o.paymentStatus)
      && u.(orderStatus := o.orderStatus, paymentStatus := o.paymentStatus) == o
  {
    if !TruthyText(orderStatus) && !TruthyText(paymentStatus) then Refuse(400, StatusRequiredMessage, db)
    else if BadOrderStatus(orderStatus) then Refuse(400, InvalidOrderStatusMessage, db)
    else if BadPaymentStatus(paymentStatus) then Refuse(400, InvalidPaymentStatusMessage, db)
    else if id !in db.orders then Refuse(404, OrderNotFoundMessage, db)
    else
      var o := db.orders[id];
      var os := if TruthyText(orderStatus) then ParseOrderStatus(orderStatus.value).value else o.orderStatus;
      var ps := if TruthyText(paymentStatus) then ParsePaymentStatus(paymentStatus.value).value else o.paymentStatus;
      var u := o.(orderStatus := os, paymentStatus := ps);
      Done(200, u, db.(orders := db.orders[id := u]))
  }

  // ---------------------------------------------------------------------
  // getUserOrders and getAllOrders

  /** Every listed id names an order, newest first (`sort({ createdAt: -1 })`). */
  predicate NewestFirst(orders: map<Id, Order>, ids: seq<Id>) {
    && (forall i :: 0 <= i < |ids| ==> ids[i] in orders)
    && forall i, j :: 0 <= i < j < |ids| ==> orders[ids[i]].createdAt >= orders[ids[j]].createdAt
  }

  /** Putting an order no older than any listed one in front keeps the
      listing newest first. */
  lemma ConsNewestFirst(orders: map<Id, Order>, x: Id, s: seq<Id>)
    requires x in orders && NewestFirst(orders, s)
    requires forall j :: 0 <= j < |s| ==> orders[x].createdAt >= orders[s[j]].createdAt
    ensures NewestFirst(orders, [x] + s)
  {
    var r := [x] + s;
    assert forall j :: 1 <= j < |r| ==> r[j] == s[j - 1];
  }

  /** Dropping the newest order of a listing leaves it newest first. */
  lemma NewestFirstTail(orders: map<Id, Order>, ids: seq<Id>)
    requires |ids| > 0 && NewestFirst(orders, ids)
    ensures NewestFirst(orders, ids[1..])
  {
    assert forall j :: 0 <= j < |ids| - 1 ==> ids[1..][j] == ids[j + 1];
  }

  /** The head of a listing is no older than anything its tail holds, nor
      than an order younger than the head, so it stays in front. */
  lemma HeadStaysFirst(orders: map<Id, Order>, ids: seq<Id>, id: Id, rest: seq<Id>)
    requires |ids| > 0 && NewestFirst(orders, ids) && NewestFirst(orders, rest)
    requires id in orders && orders[id].createdAt < orders[ids[0]].createdAt
    requires forall j :: 0 <= j < |rest| ==> rest[j] == id || rest[j] in ids[1..]
    ensures NewestFirst(orders, [ids[0]] + rest)
  {
    forall j | 0 <= j < |rest| ensures orders[ids[0]].createdAt >= orders[rest[j]].createdAt {
      if rest[j] != id {
        var k :| 0 <= k < |ids| - 1 && ids[1..][k] == rest[j];
        assert ids[1..][k] == ids[k + 1];
      }
    }
    ConsNewestFirst(orders, ids[0], rest);
  }

  /** Putting the head back in front of the tail with `id` inserted gives
      the listing with `id` added, and nothing else. */
  lemma KeepHead(ids: seq<Id>, id: Id, rest: seq<Id>)
    requires |ids| > 0
    requires multiset(rest) == multiset(ids[1..]) + multiset{id}
    requires forall j :: 0 <= j < |rest| ==> rest[j] == id || rest[j] in ids[1..]
    ensures multiset([ids[0]] + rest) == multiset(ids) + multiset{id}
    ensures forall j :: 0 <= j < |rest| + 1 ==> ([ids[0]] + rest)[j] == id || ([ids[0]] + rest)[j] in ids
  {
    assert ids == [ids[0]] + ids[1..];
    forall j | 0 <= j < |rest| + 1 ensures ([ids[0]] + rest)[j] == id || ([ids[0]] + rest)[j] in ids {
      if j > 0 {
        assert ([ids[0]] + rest)[j] == rest[j - 1];
      }
    }
  }

  /** Insert `id` into a newest-first listing, keeping it newest first. */
  function InsertNewestFirst(orders: map<Id, Order>, ids: seq<Id>, id: Id): (r: seq<Id>)
    requires id in orders && NewestFirst(orders, ids)
    ensures multiset(r) == multiset(ids) + multiset{id}
    ensures forall j :: 0 <= j < |r| ==> r[j] == id || r[j] in ids
    ensures NewestFirst(orders, r)
  {
    if |ids| == 0 then [id]
    else if orders[id].createdAt >= orders[ids[0]].createdAt then
      ConsNewestFirst(orders, id, ids);
      [id] + ids
    else
      NewestFirstTail(orders, ids);
      var rest := InsertNewestFirst(orders, ids[1..], id);
      HeadStaysFirst(orders, ids, id, rest);
      KeepHead(ids, id, rest);
      [ids[0]] + rest
  }

  /** The orders `keep` selects, each exactly once, newest first. */
  method ListNewestFirst(orders: map<Id, Order>, keep: Order -> bool) returns (ids: seq<Id>)
    ensures NewestFirst(orders, ids)
    ensures forall x :: multiset(ids)[x] == if x in orders && keep(orders[x]) then 1 else 0
  {
    ids := [];
    var rest := orders.Keys;
    while rest != {}
      invariant rest <= orders.Keys
      invariant NewestFirst(orders, ids)
      invariant forall x :: multiset(ids)[x] == (if x in orders && x !in rest && keep(orders[x]) then 1 else 0)
      decreases rest
    {
      var id :| id in rest;
      if keep(orders[id]) {
        ids := InsertNewestFirst(orders, ids, id);
      }
      rest := rest - {id};
    }
  }

  const NoOrdersMessage := "No orders found"

  /** `getUserOrders`: the caller's orders, each exactly once, newest
      first; none at all is answered with 404. */
  method GetUserOrders(db: Db, user: Id) returns (r: Reply<seq<Id>>)
    ensures r.Fail? <==> forall id :: id in db.orders ==> db.orders[id].user != user
    ensures r.Fail? ==> r == Fail(404, NoOrdersMessage)
    ensures r.Ok? ==>
      && r.code == 200
      && NewestFirst(db.orders, r.value)
      && forall x :: multiset(r.value)[x] == if x in db.orders && db.orders[x].user == user then 1 else 0
  {
    var ids := ListNewestFirst(db.orders, (o: Order) => o.user == user);
    if |ids| == 0 {
      forall id | id in db.orders ensures db.orders[id].user != user {
        assert multiset(ids)[id] == 0;
      }
      r := Fail(404, NoOrdersMessage);
    } else {
      assert ids[0] in multiset(ids);
      r := Ok(200, ids);
    }
  }

  /** `getAllOrders`: every order exactly once, newest first; an empty
      collection is answered with 404. */
  method GetAllOrders(db: Db) returns (r: Reply<seq<Id>>)
    ensures r.Fail? <==> db.orders == map[]
    ensures r.Fail? ==> r == Fail(404, NoOrdersMessage)
    ensures r.Ok? ==>
      && r.code == 200
      && NewestFirst(db.orders, r.value)
      && forall x :: multiset(r.value)[x] == if x in db.orders then 1 else 0
  {
    var ids := ListNewestFirst(db.orders, (o: Order) => true);
    if |ids| == 0 {
      assert forall x :: x in db.orders ==> multiset(ids)[x] == 1;
      assert db.orders.Keys == {};
      r := Fail(404, NoOrdersMessage);
    } else {
      assert ids[0] in multiset(ids);
      r := Ok(200, ids);
    }
  }
}
