/** The Review schema (model/review.js): who reviewed which product, a
    required rating from 1 to 5, a trimmed comment of at most 500
    characters, and a unique index on the (user, product) pair. */
module ReviewModel {
  import opened Base

  datatype Review = Review(user: Id, product: Id, rating: int, comment: string)

  const MaxCommentLength := 500

  /** The path validators checked when a review is saved. */
  predicate ValidReview(r: Review) {
    && 1 <= r.rating <= 5
    && |r.comment| <= MaxCommentLength
  }

  /** `user` has already reviewed `product`. */
  predicate HasReviewed(reviews: map<Id, Review>, user: Id, product: Id) {
    exists id :: id in reviews && reviews[id].user == user && reviews[id].product == product
  }

  /** The compound unique index `{ user: 1, product: 1 }`. */
  predicate OneReviewPerPair(reviews: map<Id, Review>) {
    forall a, b ::
      a in reviews && b in reviews
      && reviews[a].user == reviews[b].user && reviews[a].product == reviews[b].product
      ==> a == b
  }
}
