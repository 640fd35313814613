/** The product handlers (controller/product.js): create with its request
    checks and defaults, the partial update, and get, delete and list. */
module ProductController {
  import opened Base
  import opened Text
  import opened ProductModel
  import opened Store

  const CreateRequiredMessage := "Name, price, and categoryId are required"
  const PriceMessage := "Price must be positive"
  const CreateErrorMessage := "Server error during product creation"
  const UpdateErrorMessage := "Server error during product update"
  const NotFoundMessage := "Product not found"
  const NoProductsMessage := "No products found"

  /** `createProduct`. `!price` also rejects a price of 0. The request's
      `image` is not a schema path (the schema has `images`) and is dropped;
      a missing description defaults to "", which the description
      validators reject, so such a request ends in status 500. */
  function CreateProduct(db: Db, name: Option<string>, description: Option<string>, price: Option<int>,
                         categoryId: Option<Id>, stock: Option<int>, image: Option<string>, newId: Id): (r: Step<Product>)
    requires newId !in db.products
    ensures r.reply.Fail? ==> r.db == db
    ensures r.reply == Fail(400, CreateRequiredMessage) <==>
      !TruthyText(name) || !TruthyNum(price) || categoryId.None?
    ensures r.reply == Fail(400, PriceMessage) <==>
      TruthyText(name) && TruthyNum(price) && categoryId.Some? && price.value < 0
    ensures r.reply == Fail(ServerError, CreateErrorMessage) <==>
      && TruthyText(name) && TruthyNum(price) && categoryId.Some? && price.value >= 0
      && !ValidProduct(Built(name, description, price, categoryId, stock))
    ensures r.reply.Ok? <==>
      && TruthyText(name) && TruthyNum(price) && categoryId.Some? && price.value >= 0
      && ValidProduct(Built(name, description, price, categoryId, stock))
    ensures r.reply.Ok? ==> r.reply.value == Built(name, description, price, categoryId, stock)
    ensures r.reply.Ok? ==>
      && r.reply.code == 201
      && r.db == db.(products := db.products[newId := r.reply.value])
      && ValidProduct(r.reply.value)
      && r.reply.value.name == Trim(name.value)
      && r.reply.value.price == price.value && price.value > 0
      && r.reply.value.category == categoryId.value
      && r.reply.value.stock == (if TruthyNum(stock) then stock.value else DefaultStock)
      && r.reply.value.images == []
      && r.reply.value.rating == DefaultRating && r.reply.value.totalReviews == DefaultTotalReviews
      && TruthyText(description) && r.reply.value.description == Trim(description.value)
    ensures r.reply.Fail? ==> r.reply.code == 400 || r.reply == Fail(ServerError, CreateErrorMessage)
  {
    if !TruthyText(name) || !TruthyNum(price) || categoryId.None? then Refuse(400, CreateRequiredMessage, db)
    else if price.value < 0 then Refuse(400, PriceMessage, db)
    else
      var p := Built(name, description, price, categoryId, stock);
      if !ValidProduct(p) then Refuse(ServerError, CreateErrorMessage, db)
      else Done(201, p, db.(products := db.products[newId := p]))
  }

  /** The document `createProduct` builds from a request that passed its
      checks: trimmed name and description ("" when absent), the stock
      when truthy and otherwise the default, no images, default rating. */
  function Built(name: Option<string>, description: Option<string>, price: Option<int>,
                 categoryId: Option<Id>, stock: Option<int>): (p: Product)
    requires TruthyText(name) && TruthyNum(price) && categoryId.Some?
    ensures p.name == Trim(name.value) && p.price == price.value && p.category == categoryId.value
    ensures p.description == (if TruthyText(description) then Trim(description.value) else "")
    ensures p.stock == (if TruthyNum(stock) then stock.value else DefaultStock)
    ensures p.images == [] && p.rating == DefaultRating && p.totalReviews == DefaultTotalReviews
  {
    assert Trim("") == "" by { TrimFixed(""); }
    Product(Trim(name.value), Trim(if TruthyText(description) then description.value else ""),
            price.value, if TruthyNum(stock) then stock.value else DefaultStock, categoryId.value,
            [], DefaultRating, DefaultTotalReviews)
  }

  /** A product created without a description never saves: the default ""
      fails the description validators and the request ends in status 500. */
  lemma CreateWithoutDescriptionFails(db: Db, name: Option<string>, price: Option<int>, categoryId: Option<Id>,
                                      stock: Option<int>, image: Option<string>, newId: Id)
    requires newId !in db.products
    requires TruthyText(name) && TruthyNum(price) && price.value > 0 && categoryId.Some?
    ensures CreateProduct(db, name, None, price, categoryId, stock, image, newId)
         == Refuse(ServerError, CreateErrorMessage, db)
  {
    assert Trim("") == "";
  }

  /** The fields an update writes: each one is present when the request
      supplies it in the way `updateProduct` tests for. */
  datatype ProductPatch = ProductPatch(
    name: Option<string>,
    description: Option<string>,
    price: Option<int>,
    category: Option<Id>,
    stock: Option<int>)

  /** The update document of `updateProduct`: name, description and
      category when truthy (the strings through their `trim` setters), price
      and stock whenever defined, including 0. The request's `image` is not
      a schema path and is dropped by strict mode. */
  function BuildPatch(name: Option<string>, description: Option<string>, price: Option<int>,
                      category: Option<Id>, stock: Option<int>, image: Option<string>): (u: ProductPatch)
    ensures u.name.Some? <==> TruthyText(name)
    ensures u.name.Some? ==> u.name.value == Trim(name.value)
    ensures u.description.Some? <==> TruthyText(description)
    ensures u.description.Some? ==> u.description.value == Trim(description.value)
    ensures u.price == price && u.stock == stock && u.category == category
  {
    ProductPatch(
      if TruthyText(name) then Some(Trim(name.value)) else None,
      if TruthyText(description) then Some(Trim(description.value)) else None,
      price, category, stock)
  }

  /** The update validators (`runValidators: true`): only the paths the
      update sets are checked. */
  predicate PatchValid(u: ProductPatch) {
    && (u.name.Some? ==> 2 <= |u.name.value| <= 100)
    && (u.description.Some? ==> |u.description.value| >= 10)
    && (u.price.Some? ==> u.price.value >= 0)
    && (u.stock.Some? ==> u.stock.value >= 0)
  }

  /** The product after `$set` of the patch's present fields. */
  function ApplyPatch(p: Product, u: ProductPatch): (q: Product)
    ensures q.name == (if u.name.Some? then u.name.value else p.name)
    ensures q.description == (if u.description.Some? then u.description.value else p.description)
    ensures q.price == (if u.price.Some? then u.price.value else p.price)
    ensures q.category == (if u.category.Some? then u.category.value else p.category)
    ensures q.stock == (if u.stock.Some? then u.stock.value else p.stock)
    ensures q.images == p.images && q.rating == p.rating && q.totalReviews == p.totalReviews
  {
    Product(
      if u.name.Some? then u.name.value else p.name,
      if u.description.Some? then u.description.value else p.description,
      if u.price.Some? then u.price.value else p.price,
      if u.stock.Some? then u.stock.value else p.stock,
      if u.category.Some? then u.category.value else p.category,
      p.images, p.rating, p.totalReviews)
  }

  /** The update validators are exactly enough: a valid product patched
      with a patch they accept is still valid. */
  lemma PatchKeepsValid(p: Product, u: ProductPatch)
    requires ValidProduct(p)
    ensures PatchValid(u) ==> ValidProduct(ApplyPatch(p, u))
    ensures ApplyPatch(p, ProductPatch(None, None, None, None, None)) == p
  {
  }

  /** `updateProduct`. The update validators run before the query, so an
      invalid field is status 500 even for an unknown id. */
  function UpdateProduct(db: Db, id: Id, name: Option<string>, description: Option<string>, price: Option<int>,
                         category: Option<Id>, stock: Option<int>, image: Option<string>): (r: Step<Product>)
    ensures r.reply.Fail? ==> r.db == db
    ensures r.reply == Fail(400, PriceMessage) <==> price.Some? && price.value < 0
    ensures r.reply == Fail(ServerError, UpdateErrorMessage) <==>
      !(price.Some? && price.value < 0) && !PatchValid(BuildPatch(name, description, price, category, stock, image))
    ensures r.reply == Fail(404, NotFoundMessage) <==>
      !(price.Some? && price.value < 0) && PatchValid(BuildPatch(name, description, price, category, stock, image))
      && id !in db.products
    ensures r.reply.Ok? <==>
      !(price.Some? && price.value < 0) && PatchValid(BuildPatch(name, description, price, category, stock, image))
      && id in db.products
    ensures r.reply.Ok? ==>
      && id in db.products
      && r.reply == Ok(200, ApplyPatch(db.products[id], BuildPatch(name, description, price, category, stock, image)))
      && r.db == db.(products := db.products[id := r.reply.value])
  {
    var u := BuildPatch(name, description, price, category, stock, image);
    if price.Some? && price.value < 0 then Refuse(400, PriceMessage, db)
    else if !PatchValid(u) then Refuse(ServerError, UpdateErrorMessage, db)
    else if id !in db.products then Refuse(404, NotFoundMessage, db)
    else
      var q := ApplyPatch(db.products[id], u);
      Done(200, q, db.(products := db.products[id := q]))
  }

  /** A successful update keeps the catalog valid, and a price or stock of
      0 is applied (they are tested for being defined, not truthy). */
  lemma UpdateProductKeepsValid(db: Db, id: Id, name: Option<string>, description: Option<string>,
                                price: Option<int>, category: Option<Id>, stock: Option<int>, image: Option<string>)
    requires AllProductsValid(db.products)
    ensures
      var r := UpdateProduct(db, id, name, description, price, category, stock, image);
      && AllProductsValid(r.db.products)
      && (r.reply.Ok? && stock == Some(0) ==> r.reply.value.stock == 0)
      && (r.reply.Ok? && price == Some(0) ==> r.reply.value.price == 0)
  {
    var r := UpdateProduct(db, id, name, description, price, category, stock, image);
    if r.reply.Ok? {
      PatchKeepsValid(db.products[id], BuildPatch(name, description, price, category, stock, image));
    }
  }

  /** `getProductById`. */
  function GetProductById(db: Db, id: Id): (r: Reply<Product>)
    ensures r.Ok? <==> id in db.products
    ensures r.Ok? ==> r.code == 200 && r.value == db.products[id]
    ensures r.Fail? ==> r == Fail(404, NotFoundMessage)
  {
    if id in db.products then Ok(200, db.products[id]) else Fail(404, NotFoundMessage)
  }

  /** `deleteProduct`: removes exactly that product and answers with it.
      Carts and orders that name it are left as they are. */
  function DeleteProduct(db: Db, id: Id): (r: Step<Product>)
    ensures r.reply.Ok? <==> id in db.products
    ensures r.reply.Ok? ==>
      && r.reply == Ok(200, db.products[id])
      && r.db == db.(products := db.products - {id})
    ensures r.reply.Fail? ==> r.reply == Fail(404, NotFoundMessage) && r.db == db
  {
    if id in db.products then Done(200, db.products[id], db.(products := db.products - {id}))
    else Refuse(404, NotFoundMessage, db)
  }

  /** Creating, reading back and deleting: a created product is found
      under its id with the values it was created with; once deleted it is
      not found, and every other product is as it was. */
  lemma CreateGetDelete(db: Db, name: Option<string>, description: Option<string>, price: Option<int>,
                        categoryId: Option<Id>, stock: Option<int>, image: Option<string>, newId: Id)
    requires newId !in db.products
    requires CreateProduct(db, name, description, price, categoryId, stock, image, newId).reply.Ok?
    ensures
      var c := CreateProduct(db, name, description, price, categoryId, stock, image, newId);
      var d := DeleteProduct(c.db, newId);
      && GetProductById(c.db, newId) == Ok(200, c.reply.value)
      && d.reply == Ok(200, c.reply.value)
      && GetProductById(d.db, newId) == Fail(404, NotFoundMessage)
      && d.db.products == db.products
  {
    var c := CreateProduct(db, name, description, price, categoryId, stock, image, newId);
    var p := c.reply.value;
    assert c.db.products == db.products[newId := p];
    MapAddRemove(db.products, newId, p);
  }

  /** Adding a fresh key to a map and removing it again gives the map back. */
  lemma MapAddRemove(m: map<Id, Product>, k: Id, v: Product)
    requires k !in m
    ensures m[k := v] - {k} == m
  {
  }

  /** `getAllProducts`: every product, in the collection's order, which the
      model does not fix; an empty catalog is answered with 404. */
  function GetAllProducts(db: Db): (r: Reply<set<Id>>)
    ensures r.Fail? <==> |db.products| == 0
    ensures r.Fail? ==> r == Fail(404, NoProductsMessage)
    ensures r.Ok? ==> r.code == 200 && r.value == db.products.Keys && |r.value| == |db.products|
  {
    if |db.products| == 0 then Fail(404, NoProductsMessage) else Ok(200, db.products.Keys)
  }
}
