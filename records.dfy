/** The records both views hold in their state, as the remote service sends them. */
module Records {

  datatype Option<+T> = None | Some(value: T)

  /** Identifiers are opaque strings assigned by the remote service. */
  type MovieId = string
  type ReviewId = string

  /** A movie; `averageRating` is absent while the movie has no reviews. */
  datatype Movie = Movie(id: MovieId, name: string, releaseDate: string, averageRating: Option<real>)

  /** A review. `id` is `None` for a review the detail view built itself and never
      received back from the service. */
  datatype Review = Review(id: Option<ReviewId>, movieId: MovieId, reviewerName: string, rating: string, comments: string)
}
