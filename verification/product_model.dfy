/** The Product schema (model/product.js). Prices are whole cents. */
module ProductModel {
  import opened Base

  datatype Product = Product(
    name: string,
    description: string,
    price: int,
    stock: int,
    category: Id,
    images: seq<string>,
    rating: int,
    totalReviews: int)

  /** The path validators Mongoose runs when a product is saved: a name of
      2 to 100 characters, a non-empty description of at least 10, and the
      numeric minima and maxima. The strings are already trimmed by their
      setters. */
  predicate ValidProduct(p: Product) {
    && 2 <= |p.name| <= 100
    && |p.description| >= 10
    && p.price >= 0
    && p.stock >= 0
    && 0 <= p.rating <= 5
    && p.totalReviews >= 0
  }

  /** The schema defaults of a freshly constructed product. */
  const DefaultStock := 0
  const DefaultRating := 0
  const DefaultTotalReviews := 0

  /** Only the stock changes; a valid product stays valid as long as the new
      stock is not negative, and becomes invalid as soon as it is. */
  lemma WithStock(p: Product, stock: int)
    requires ValidProduct(p)
    ensures ValidProduct(p.(stock := stock)) <==> stock >= 0
  {
  }

  predicate AllProductsValid(products: map<Id, Product>) {
    forall id :: id in products ==> ValidProduct(products[id])
  }
}
