/** The detail view of one movie: its reviews, the comment search kept up to date by an
    effect, and the review form. */
module MovieDetails {
  import opened Records
  import opened Remote
  import opened Text
  import opened Seqs

  /** The review form: three text fields, the rating as typed. */
  datatype ReviewForm = ReviewForm(reviewerName: string, rating: string, comments: string)

  const EmptyReviewForm := ReviewForm("", "", "")

  /** The requests the view sends to the remote service. */
  datatype Request =
    | GetMovie(movie: MovieId)
    | ListReviews(movieId: MovieId)
    | CreateReview(body: Review)

  function CommentMatches(term: string): Review -> bool
  {
    (r: Review) => MatchesTerm(r.comments, term)
  }

  /** The reviews shown for a search term: those whose lower-cased comments contain the
      lower-cased term. An empty term shows every review. */
  function FilterReviews(reviews: seq<Review>, term: string): (shown: seq<Review>)
    ensures forall r :: r in shown <==> r in reviews && MatchesTerm(r.comments, term)
    ensures term == [] ==> shown == reviews
  {
    FilterMembership(CommentMatches(term), reviews);
    FilterIdentity(CommentMatches(term), reviews);
    Filter(CommentMatches(term), reviews)
  }

  /** The comment search keeps the matching reviews in their order, each as often as in
      the loaded list. */
  lemma FilterReviewsKeepsOrder(reviews: seq<Review>, term: string)
    ensures IsSubsequence(FilterReviews(reviews, term), reviews)
    ensures forall r :: multiset(FilterReviews(reviews, term))[r] ==
                        if MatchesTerm(r.comments, term) then multiset(reviews)[r] else 0
  {
    FilterIsSubsequence(CommentMatches(term), reviews);
    forall r {
      FilterMultiplicity(CommentMatches(term), reviews, r);
    }
  }

  /** Filtering the shown reviews again with the same term shows the same reviews. */
  lemma FilterReviewsIdempotent(reviews: seq<Review>, term: string)
    ensures FilterReviews(FilterReviews(reviews, term), term) == FilterReviews(reviews, term)
  {
    FilterIdempotent(CommentMatches(term), reviews);
  }

  /** A review appended to the list is shown last exactly when its comments match. */
  lemma FilterReviewsAfterAppend(reviews: seq<Review>, term: string, added: Review)
    ensures FilterReviews(reviews + [added], term) ==
            FilterReviews(reviews, term) + (if MatchesTerm(added.comments, term) then [added] else [])
  {
    FilterAppend(CommentMatches(term), reviews, [added]);
  }

  /** The submit handler appends the new review to the shown list unconditionally. Starting
      from a shown list that the effect computed, that agrees with what the effect computes
      from the extended list exactly when the review's comments match the term. */
  lemma AppendAgreesWithEffect(reviews: seq<Review>, shown: seq<Review>, term: string, added: Review)
    requires shown == FilterReviews(reviews, term)
    ensures shown + [added] == FilterReviews(reviews + [added], term) <==> MatchesTerm(added.comments, term)
  {
    FilterReviewsAfterAppend(reviews, term, added);
    if !MatchesTerm(added.comments, term) {
      assert |shown + [added]| != |FilterReviews(reviews + [added], term)|;
    }
  }

  /** All three fields are filled in (JavaScript treats the empty string as false).
      The cleared form is never complete. */
  predicate FormComplete(form: ReviewForm): (ok: bool)
    ensures ok <==> forall field :: field in [form.reviewerName, form.rating, form.comments] ==> |field| > 0
    ensures form == EmptyReviewForm ==> !ok
  {
    form.reviewerName != [] && form.rating != [] && form.comments != []
  }

  /** The form fields a review carries. */
  function FormOf(review: Review): ReviewForm
  {
    ReviewForm(review.reviewerName, review.rating, review.comments)
  }

  /** The record the submit handler sends and appends: the form's fields tagged with the
      route's movie identifier, and no server-assigned identifier. */
  function BuildReview(form: ReviewForm, id: MovieId): (review: Review)
    ensures FormOf(review) == form
    ensures review.movieId == id && review.id == None
  {
    Review(None, id, form.reviewerName, form.rating, form.comments)
  }

  /** The state of the detail view for the movie `id` of the route. */
  class DetailsState {
    var id: MovieId
    var movie: Option<Movie>
    var reviews: seq<Review>
    var filteredReviews: seq<Review>
    var reviewForm: ReviewForm
    var searchTerm: string

    /** The shown reviews are the comment search of the loaded ones: what the filter
        effect establishes each time it runs. */
    ghost predicate Synced()
      reads this
    {
      filteredReviews == FilterReviews(reviews, searchTerm)
    }

    constructor (routeId: MovieId)
      ensures id == routeId && movie == None
      ensures reviews == [] && filteredReviews == [] && reviewForm == EmptyReviewForm && searchTerm == []
      ensures Synced()
    {
      id := routeId;
      movie := None;
      reviews, filteredReviews := [], [];
      reviewForm := EmptyReviewForm;
      searchTerm := [];
    }

    /** The route now names another movie; the loads below run again for it. */
    method SetRoute(routeId: MovieId)
      modifies this`id
      ensures id == routeId
    {
      id := routeId;
    }

    /** Loading the movie: on success it is stored; a failure is only logged. */
    method LoadMovie(outcome: Response<Movie>) returns (sent: Request)
      modifies this`movie
      ensures sent == GetMovie(id)
      ensures movie == if outcome.Ok? then Some(outcome.data) else old(movie)
    {
      sent := GetMovie(id);
      if outcome.Ok? {
        movie := Some(outcome.data);
      }
    }

    /** Loading the reviews: on success both the loaded and the shown lists become the
        fetched list; a failure is only logged. */
    method LoadReviews(outcome: Response<seq<Review>>) returns (sent: Request)
      modifies this`reviews, this`filteredReviews
      ensures sent == ListReviews(id)
      ensures outcome.Ok? ==> reviews == outcome.data && filteredReviews == outcome.data
      ensures outcome.Failed? ==> reviews == old(reviews) && filteredReviews == old(filteredReviews)
    {
      sent := ListReviews(id);
      if outcome.Ok? {
        reviews := outcome.data;
        filteredReviews := outcome.data;
      }
    }

    /** The effect that runs whenever the term or the loaded list changes: the shown list
        becomes the comment search of the loaded list. Running it again changes nothing. */
    method RunFilterEffect()
      modifies this`filteredReviews
      ensures Synced()
      ensures old(Synced()) ==> filteredReviews == old(filteredReviews)
    {
      filteredReviews := FilterReviews(reviews, searchTerm);
    }

    /** Typing in the search box. */
    method SetSearchTerm(term: string)
      modifies this`searchTerm
      ensures searchTerm == term
    {
      searchTerm := term;
    }

    /** Typing in the review form. */
    method SetReviewForm(form: ReviewForm)
      modifies this`reviewForm
      ensures reviewForm == form
    {
      reviewForm := form;
    }

    /** Submitting the review form. With an empty field nothing is sent, an alert is shown
        and nothing changes. Otherwise the built record is sent; on success that same
        record (not the server's answer) goes to the end of both the loaded and the shown
        list and the form is cleared; on failure nothing changes. */
    method HandleAddReview(outcome: Response<Review>) returns (sent: Option<Request>, alerted: bool)
      modifies this`reviews, this`filteredReviews, this`reviewForm
      ensures !FormComplete(old(reviewForm)) ==>
        sent == None && alerted &&
        reviews == old(reviews) && filteredReviews == old(filteredReviews) && reviewForm == old(reviewForm)
      ensures FormComplete(old(reviewForm)) ==>
        sent == Some(CreateReview(BuildReview(old(reviewForm), id))) && !alerted
      ensures FormComplete(old(reviewForm)) && outcome.Ok? ==>
        reviews == old(reviews) + [BuildReview(old(reviewForm), id)] &&
        filteredReviews == old(filteredReviews) + [BuildReview(old(reviewForm), id)] &&
        reviewForm == EmptyReviewForm
      ensures outcome.Failed? ==>
        reviews == old(reviews) && filteredReviews == old(filteredReviews) && reviewForm == old(reviewForm)
    {
      if !FormComplete(reviewForm) {
        return None, true;
      }
      var newReview := BuildReview(reviewForm, id);
      sent, alerted := Some(CreateReview(newReview)), false;
      if outcome.Ok? {
        reviews := reviews + [newReview];
        filteredReviews := filteredReviews + [newReview];
        reviewForm := EmptyReviewForm;
      }
    }

    /** A submit followed by the filter effect, which runs when the submit changed the
        loaded list. After a successful submit the shown list is the comment search of the
        loaded list again; from a synced state it gained the new review exactly when the
        review's comments match the term. */
    method SubmitReview(outcome: Response<Review>) returns (sent: Option<Request>, alerted: bool)
      modifies this`reviews, this`filteredReviews, this`reviewForm
      ensures sent == if FormComplete(old(reviewForm)) then Some(CreateReview(BuildReview(old(reviewForm), id))) else None
      ensures alerted == !FormComplete(old(reviewForm))
      ensures reviewForm == if sent.Some? && outcome.Ok? then EmptyReviewForm else old(reviewForm)
      ensures old(Synced()) || (sent.Some? && outcome.Ok?) ==> Synced()
      ensures reviews == if sent.Some? && outcome.Ok? then old(reviews) + [BuildReview(old(reviewForm), id)] else old(reviews)
      ensures old(Synced()) && sent.Some? && outcome.Ok? ==>
        var added := BuildReview(old(reviewForm), id);
        filteredReviews == old(filteredReviews) + (if MatchesTerm(added.comments, searchTerm) then [added] else [])
      ensures sent.None? || outcome.Failed? ==> filteredReviews == old(filteredReviews)
    {
      sent, alerted := HandleAddReview(outcome);
      if sent.Some? && outcome.Ok? {
        FilterReviewsAfterAppend(old(reviews), searchTerm, BuildReview(old(reviewForm), id));
        RunFilterEffect();
      }
    }
  }
}
