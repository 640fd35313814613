/** `createReview` (controller/review.js): a review is written only after
    the request checks, the product lookup, the purchase check and the
    duplicate check, in that order. */
module ReviewController {
  import opened Base
  import opened Text
  import opened OrderModel
  import opened ReviewModel
  import opened Store

  const FieldsRequiredMessage := "Product ID and rating are required"
  const RatingRangeMessage := "Rating must be between 1 and 5"
  const ProductNotFoundMessage := "Product not found"
  const NotPurchasedMessage := "You can only review products you have purchased"
  const AlreadyReviewedMessage := "You have already reviewed this product"
  const CreateErrorMessage := "Server error while creating review"

  /** Some line of the order is for `product`. */
  predicate OrderHas(o: Order, product: Id) {
    exists i :: 0 <= i < |o.items| && o.items[i].product == product
  }

  /** `orderModel.findOne({ user, 'items.product': product })` finds an
      order: the user has bought the product at least once. */
  predicate Purchased(orders: map<Id, Order>, user: Id, product: Id) {
    exists id :: id in orders && orders[id].user == user && OrderHas(orders[id], product)
  }

  /** The comment as stored: `comment || ""` through the `trim` setter. */
  function StoredComment(comment: Option<string>): (r: string)
    ensures !TruthyText(comment) ==> r == ""
    ensures TruthyText(comment) ==> exists a :: CutAt(comment.value, r, a)
    ensures |r| > 0 ==> !IsSpace(r[0]) && !IsSpace(r[|r| - 1])
  {
    Trim(if TruthyText(comment) then comment.value else "")
  }

  /** `createReview`. Each refusal names the first check that fails; a
      comment longer than 500 characters once trimmed fails the save. */
  function CreateReview(db: Db, user: Id, productId: Option<Id>, rating: Option<int>, comment: Option<string>,
                        newId: Id): (r: Step<Review>)
    requires newId !in db.reviews
    ensures r.reply.Fail? ==> r.db == db
    ensures r.reply == Fail(400, FieldsRequiredMessage) <==> productId.None? || !TruthyNum(rating)
    ensures r.reply == Fail(400, RatingRangeMessage) <==>
      productId.Some? && TruthyNum(rating) && !(1 <= rating.value <= 5)
    ensures r.reply == Fail(404, ProductNotFoundMessage) <==>
      productId.Some? && TruthyNum(rating) && 1 <= rating.value <= 5 && productId.value !in db.products
    ensures r.reply == Fail(403, NotPurchasedMessage) <==>
      && productId.Some? && TruthyNum(rating) && 1 <= rating.value <= 5 && productId.value in db.products
      && !Purchased(db.orders, user, productId.value)
    ensures r.reply == Fail(400, AlreadyReviewedMessage) <==>
      && productId.Some? && TruthyNum(rating) && 1 <= rating.value <= 5 && productId.value in db.products
      && Purchased(db.orders, user, productId.value)
      && HasReviewed(db.reviews, user, productId.value)
    ensures r.reply == Fail(ServerError, CreateErrorMessage) <==>
      && productId.Some? && TruthyNum(rating) && 1 <= rating.value <= 5 && productId.value in db.products
      && Purchased(db.orders, user, productId.value)
      && !HasReviewed(db.reviews, user, productId.value)
      && |StoredComment(comment)| > MaxCommentLength
    ensures r.reply.Ok? <==>
      && productId.Some? && TruthyNum(rating) && 1 <= rating.value <= 5 && productId.value in db.products
      && Purchased(db.orders, user, productId.value)
      && !HasReviewed(db.reviews, user, productId.value)
      && |StoredComment(comment)| <= MaxCommentLength
    ensures r.reply.Ok? ==>
      && r.reply == Ok(201, Review(user, productId.value, rating.value, StoredComment(comment)))
      && r.db == db.(reviews := db.reviews[newId := r.reply.value])
  {
    if productId.None? || !TruthyNum(rating) then Refuse(400, FieldsRequiredMessage, db)
    else if rating.value < 1 || rating.value > 5 then Refuse(400, RatingRangeMessage, db)
    else if productId.value !in db.products then Refuse(404, ProductNotFoundMessage, db)
    else if !Purchased(db.orders, user, productId.value) then Refuse(403, NotPurchasedMessage, db)
    else if HasReviewed(db.reviews, user, productId.value) then Refuse(400, AlreadyReviewedMessage, db)
    else
      var review := Review(user, productId.value, rating.value, StoredComment(comment));
      if !ValidReview(review) then Refuse(ServerError, CreateErrorMessage, db)
      else Done(201, review, db.(reviews := db.reviews[newId := review]))
  }

  /** A created review passes the schema validators, belongs to a buyer of
      the product, and keeps the (user, product) pair unique; every other
      outcome leaves the reviews as they were. */
  lemma CreateReviewKeepsInvariants(db: Db, user: Id, productId: Option<Id>, rating: Option<int>,
                                    comment: Option<string>, newId: Id)
    requires newId !in db.reviews
    requires OneReviewPerPair(db.reviews)
    ensures
      var r := CreateReview(db, user, productId, rating, comment, newId);
      && OneReviewPerPair(r.db.reviews)
      && (r.reply.Ok? ==> ValidReview(r.reply.value) && Purchased(db.orders, user, r.reply.value.product))
  {
    var r := CreateReview(db, user, productId, rating, comment, newId);
    if r.reply.Ok? {
      InsertKeepsPairs(db.reviews, newId, r.reply.value);
    }
  }

  /** Storing a review of a pair nobody has reviewed keeps every pair
      unique. */
  lemma InsertKeepsPairs(reviews: map<Id, Review>, newId: Id, rv: Review)
    requires newId !in reviews && OneReviewPerPair(reviews)
    requires !HasReviewed(reviews, rv.user, rv.product)
    ensures OneReviewPerPair(reviews[newId := rv])
  {
    var next := reviews[newId := rv];
    forall a, b | a in next && b in next && next[a].user == next[b].user && next[a].product == next[b].product
      ensures a == b
    {
      if a != newId && b != newId {
        assert next[a] == reviews[a] && next[b] == reviews[b];
      }
    }
  }

  /** A second review of the same product by the same user is refused with
      status 400 once the first is stored, whatever rating or comment the
      second carries. */
  lemma SecondReviewRefused(db: Db, user: Id, productId: Option<Id>, rating: Option<int>, comment: Option<string>,
                            newId: Id, rating2: Option<int>, comment2: Option<string>, newId2: Id)
    requires newId !in db.reviews
    requires CreateReview(db, user, productId, rating, comment, newId).reply.Ok?
    requires TruthyNum(rating2) && 1 <= rating2.value <= 5
    requires newId2 !in CreateReview(db, user, productId, rating, comment, newId).db.reviews
    ensures
      var db1 := CreateReview(db, user, productId, rating, comment, newId).db;
      CreateReview(db1, user, productId, rating2, comment2, newId2).reply == Fail(400, AlreadyReviewedMessage)
  {
    var db1 := CreateReview(db, user, productId, rating, comment, newId).db;
    assert db1.reviews[newId].user == user && db1.reviews[newId].product == productId.value;
  }
}
