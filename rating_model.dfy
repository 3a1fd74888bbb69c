/** The rating record (models/Rating.js): one user's score and comment for one service. */
module RatingModel {
  import opened Wrappers
  import opened Ids

  /**
   * One rating. `rating` is `None` when the document has no score: the
   * review route's upsert runs no validators, so a review without one
   * inserts a document without it.
   */
  datatype Rating = Rating(userId: Id, serviceId: Id, rating: Option<real>, comment: Option<string>)

  /** A score, when there is one, lies in 1..5 (`min: 1, max: 5`). */
  predicate InBounds(r: Rating) {
    r.rating.Some? ==> 1.0 <= r.rating.value <= 5.0
  }

  /** What the schema demands of one rating: both references and the score present, the score in bounds. */
  predicate Conforms(r: Rating) {
    r.userId != "" && r.serviceId != "" && r.rating.Some? && InBounds(r)
  }

  /** The unique index on (user_id, service_id): no two ratings share the pair. */
  predicate OnePerPair(rs: seq<Rating>) {
    forall i, j :: 0 <= i < |rs| && 0 <= j < |rs| && i != j ==>
      rs[i].userId != rs[j].userId || rs[i].serviceId != rs[j].serviceId
  }
}
