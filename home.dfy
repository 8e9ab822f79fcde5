/** The catalog view: the movie list, its title search, and the add / edit / delete /
    add-review handlers, each taken at the point where the remote service has answered. */
module Home {
  import opened Records
  import opened Remote
  import opened Text
  import opened Seqs

  /** The add/edit movie form. */
  datatype MovieForm = MovieForm(name: string, releaseDate: string)

  const EmptyMovieForm := MovieForm("", "")

  /** The add-review form of the catalog view, with the movie picked from a list. */
  datatype ReviewDraft = ReviewDraft(movieId: string, reviewerName: string, rating: string, comments: string)

  const EmptyReviewDraft := ReviewDraft("", "", "", "")

  /** The three forms the view shows as modal dialogs. */
  datatype Modal = AddMovieModal | AddReviewModal | EditMovieModal

  /** The requests the view sends to the remote service. */
  datatype Request =
    | ListMovies
    | CreateMovie(body: MovieForm)
    | UpdateMovie(target: Option<MovieId>, body: MovieForm)
    | DeleteMovie(deleted: MovieId)
    | CreateReview(draft: ReviewDraft)

  /** No two movies of the list share an identifier. */
  ghost predicate UniqueIds(movies: seq<Movie>)
  {
    forall i, j :: 0 <= i < j < |movies| ==> movies[i].id != movies[j].id
  }

  /** Some movie of the list has identifier `id`. */
  ghost predicate HasId(movies: seq<Movie>, id: MovieId)
  {
    exists i :: 0 <= i < |movies| && movies[i].id == id
  }

  function NameMatches(term: string): Movie -> bool
  {
    (m: Movie) => MatchesTerm(m.name, term)
  }

  function IdIsNot(id: MovieId): Movie -> bool
  {
    (m: Movie) => m.id != id
  }

  function ReplaceIfTarget(target: Option<MovieId>, updated: Movie): Movie -> Movie
  {
    (m: Movie) => if Some(m.id) == target then updated else m
  }

  /** The movies shown for a search term: those whose lower-cased name contains the
      lower-cased term. An empty term shows every movie. */
  function Search(movies: seq<Movie>, term: string): (shown: seq<Movie>)
    ensures forall m :: m in shown <==> m in movies && MatchesTerm(m.name, term)
    ensures term == [] ==> shown == movies
  {
    FilterMembership(NameMatches(term), movies);
    FilterIdentity(NameMatches(term), movies);
    Filter(NameMatches(term), movies)
  }

  /** The list after a successful delete of `id`: every movie with that identifier is
      gone, every other one is still there as often as before, in the same relative order. */
  function RemoveById(movies: seq<Movie>, id: MovieId): (kept: seq<Movie>)
    ensures forall m :: m in kept <==> m in movies && m.id != id
    ensures forall m :: multiset(kept)[m] == if m.id != id then multiset(movies)[m] else 0
    ensures IsSubsequence(kept, movies)
  {
    FilterMembership(IdIsNot(id), movies);
    forall m {
      FilterMultiplicity(IdIsNot(id), movies, m);
    }
    FilterIsSubsequence(IdIsNot(id), movies);
    Filter(IdIsNot(id), movies)
  }

  /** The list after a successful update of `target`: same length, the server's record
      in every slot whose identifier is `target`, every other slot untouched. */
  function ReplaceById(movies: seq<Movie>, target: Option<MovieId>, updated: Movie): (r: seq<Movie>)
    ensures |r| == |movies|
    ensures forall i :: 0 <= i < |movies| && Some(movies[i].id) == target ==> r[i] == updated
    ensures forall i :: 0 <= i < |movies| && Some(movies[i].id) != target ==> r[i] == movies[i]
  {
    Map(ReplaceIfTarget(target, updated), movies)
  }

  /** The search keeps the matching movies in their original order, each as often as in
      the loaded list, and no other movie. */
  lemma SearchKeepsOrder(movies: seq<Movie>, term: string)
    ensures IsSubsequence(Search(movies, term), movies)
    ensures forall m :: multiset(Search(movies, term))[m] ==
                        if MatchesTerm(m.name, term) then multiset(movies)[m] else 0
  {
    FilterIsSubsequence(NameMatches(term), movies);
    forall m {
      FilterMultiplicity(NameMatches(term), movies, m);
    }
  }

  /** Searching the shown list again with the same term shows the same list. */
  lemma SearchIdempotent(movies: seq<Movie>, term: string)
    ensures Search(Search(movies, term), term) == Search(movies, term)
  {
    FilterIdempotent(NameMatches(term), movies);
  }

  /** A movie appended by a successful add is shown last exactly when it matches the term;
      what was shown before stays shown, in front of it. */
  lemma SearchAfterAdd(movies: seq<Movie>, term: string, added: Movie)
    ensures Search(movies + [added], term) ==
            Search(movies, term) + (if MatchesTerm(added.name, term) then [added] else [])
  {
    FilterAppend(NameMatches(term), movies, [added]);
  }

  /** Deleting and then searching shows what searching and then deleting would. */
  lemma SearchAfterDelete(movies: seq<Movie>, term: string, id: MovieId)
    ensures Search(RemoveById(movies, id), term) == RemoveById(Search(movies, term), id)
  {
    FilterCommutes(NameMatches(term), IdIsNot(id), movies);
  }

  /** In a list with unique identifiers exactly one movie carries `id` when any does. */
  lemma {:induction false} CountWithUniqueId(movies: seq<Movie>, id: MovieId)
    requires UniqueIds(movies)
    ensures CountFailing(IdIsNot(id), movies) == if HasId(movies, id) then 1 else 0
  {
    if movies != [] {
      var rest := movies[1..];
      assert UniqueIds(rest) by {
        forall i, j | 0 <= i < j < |rest| ensures rest[i].id != rest[j].id {
          assert rest[i] == movies[i + 1] && rest[j] == movies[j + 1];
        }
      }
      CountWithUniqueId(rest, id);
      if movies[0].id == id {
        assert HasId(movies, id);
        assert !HasId(rest, id) by {
          forall i | 0 <= i < |rest| ensures rest[i].id != id {
            assert rest[i] == movies[i + 1];
          }
        }
      } else {
        assert HasId(rest, id) <==> HasId(movies, id) by {
          if HasId(movies, id) {
            var i :| 0 <= i < |movies| && movies[i].id == id;
            assert rest[i - 1] == movies[i];
          }
          if HasId(rest, id) {
            var i :| 0 <= i < |rest| && rest[i].id == id;
            assert movies[i + 1] == rest[i];
          }
        }
      }
    }
  }

  /** With unique identifiers a successful delete of a present `id` shortens the list by
      exactly one, and of an absent `id` leaves it as it was. */
  lemma RemoveByIdLength(movies: seq<Movie>, id: MovieId)
    requires UniqueIds(movies)
    ensures |RemoveById(movies, id)| == if HasId(movies, id) then |movies| - 1 else |movies|
    ensures !HasId(movies, id) ==> RemoveById(movies, id) == movies
  {
    FilterLength(IdIsNot(id), movies);
    CountWithUniqueId(movies, id);
    FilterIdentity(IdIsNot(id), movies);
  }

  /** Deleting keeps the identifiers unique. */
  lemma {:induction false} SubsequenceKeepsUniqueIds(r: seq<Movie>, s: seq<Movie>)
    requires IsSubsequence(r, s) && UniqueIds(s)
    ensures UniqueIds(r)
    decreases |s|
  {
    if r != [] {
      var rest := s[1..];
      assert UniqueIds(rest) by {
        forall i, j | 0 <= i < j < |rest| ensures rest[i].id != rest[j].id {
          assert rest[i] == s[i + 1] && rest[j] == s[j + 1];
        }
      }
      if r[0] == s[0] && IsSubsequence(r[1..], rest) {
        SubsequenceKeepsUniqueIds(r[1..], rest);
        SubsequenceMembers(r[1..], rest);
        forall i, j | 0 <= i < j < |r| ensures r[i].id != r[j].id {
          if i == 0 {
            assert r[j] == r[1..][j - 1];
            assert r[j] in r[1..];
            var k :| 0 <= k < |rest| && rest[k] == r[j];
            assert rest[k] == s[k + 1];
          } else {
            assert r[i] == r[1..][i - 1] && r[j] == r[1..][j - 1];
          }
        }
      } else {
        SubsequenceKeepsUniqueIds(r, rest);
      }
    }
  }

  /** Every element of a subsequence comes from the sequence. */
  lemma {:induction false} SubsequenceMembers(r: seq<Movie>, s: seq<Movie>)
    requires IsSubsequence(r, s)
    ensures forall x :: x in r ==> x in s
    decreases |s|
  {
    if r != [] {
      if r[0] == s[0] && IsSubsequence(r[1..], s[1..]) {
        SubsequenceMembers(r[1..], s[1..]);
        assert r == [r[0]] + r[1..];
        assert s == [s[0]] + s[1..];
      } else {
        SubsequenceMembers(r, s[1..]);
        assert s == [s[0]] + s[1..];
      }
    }
  }

  /** A successful delete keeps the identifiers unique. */
  lemma RemoveByIdKeepsUniqueIds(movies: seq<Movie>, id: MovieId)
    requires UniqueIds(movies)
    ensures UniqueIds(RemoveById(movies, id))
  {
    SubsequenceKeepsUniqueIds(RemoveById(movies, id), movies);
  }

  /** With unique identifiers an update of the movie at `k` puts the server's record in
      that one slot. */
  lemma ReplaceByIdAt(movies: seq<Movie>, k: int, updated: Movie)
    requires UniqueIds(movies) && 0 <= k < |movies|
    ensures ReplaceById(movies, Some(movies[k].id), updated) == movies[k := updated]
  {
    var r := ReplaceById(movies, Some(movies[k].id), updated);
    forall i | 0 <= i < |movies| ensures r[i] == movies[k := updated][i] {
      if i != k {
        assert movies[i].id != movies[k].id;
      }
    }
  }

  /** An update whose target is absent from the list (or the still-unset `null` target)
      changes no movie. */
  lemma ReplaceByIdAbsent(movies: seq<Movie>, target: Option<MovieId>, updated: Movie)
    requires target.None? || !HasId(movies, target.value)
    ensures ReplaceById(movies, target, updated) == movies
  {
    var r := ReplaceById(movies, target, updated);
    forall i | 0 <= i < |movies| ensures r[i] == movies[i] {
      assert Some(movies[i].id) != target;
    }
  }

  /** Apart from the updated movie the list is what it was: removing the target from both
      the updated and the old list gives the same list. */
  lemma {:induction false} ReplaceThenRemove(movies: seq<Movie>, id: MovieId, updated: Movie)
    requires updated.id == id
    ensures RemoveById(ReplaceById(movies, Some(id), updated), id) == RemoveById(movies, id)
  {
    if movies != [] {
      ReplaceThenRemove(movies[1..], id, updated);
      var f := ReplaceIfTarget(Some(id), updated);
      assert Map(f, movies) == [f(movies[0])] + Map(f, movies[1..]);
      assert Map(f, movies)[1..] == Map(f, movies[1..]);
    }
  }

  /** An update that answers with a record carrying the target identifier keeps the
      identifiers unique. */
  lemma ReplaceByIdKeepsUniqueIds(movies: seq<Movie>, updated: Movie)
    requires UniqueIds(movies)
    ensures UniqueIds(ReplaceById(movies, Some(updated.id), updated))
  {
    var r := ReplaceById(movies, Some(updated.id), updated);
    forall i, j | 0 <= i < j < |r| ensures r[i].id != r[j].id {
      assert movies[i].id != movies[j].id;
    }
  }

  /** The state of the catalog view: the loaded movies, the search box, the three modal
      flags, the two forms and the movie being edited. */
  class HomeState {
    var movies: seq<Movie>
    var searchTerm: string
    var showAddMovieModal: bool
    var showAddReviewModal: bool
    var showEditMovieModal: bool
    var newMovie: MovieForm
    var newReview: ReviewDraft
    var currentMovieId: Option<MovieId>

    constructor ()
      ensures movies == [] && searchTerm == []
      ensures !showAddMovieModal && !showAddReviewModal && !showEditMovieModal
      ensures newMovie == EmptyMovieForm && newReview == EmptyReviewDraft
      ensures currentMovieId == None
    {
      movies := [];
      searchTerm := [];
      showAddMovieModal, showAddReviewModal, showEditMovieModal := false, false, false;
      newMovie := EmptyMovieForm;
      newReview := EmptyReviewDraft;
      currentMovieId := None;
    }

    /** The movies on screen. */
    function Displayed(): (shown: seq<Movie>)
      reads this
      ensures forall m :: m in shown <==> m in movies && MatchesTerm(m.name, searchTerm)
      ensures searchTerm == [] ==> shown == movies
    {
      Search(movies, searchTerm)
    }

    function ModalOpen(modal: Modal): bool
      reads this
    {
      match modal
      case AddMovieModal => showAddMovieModal
      case AddReviewModal => showAddReviewModal
      case EditMovieModal => showEditMovieModal
    }

    /** The mount effect: a successful load replaces the list; a failure is only logged. */
    method LoadMovies(outcome: Response<seq<Movie>>) returns (sent: Request)
      modifies this`movies
      ensures sent == ListMovies
      ensures movies == if outcome.Ok? then outcome.data else old(movies)
    {
      sent := ListMovies;
      if outcome.Ok? {
        movies := outcome.data;
      }
    }

    /** Typing in the search box. */
    method HandleSearchChange(value: string)
      modifies this`searchTerm
      ensures searchTerm == value
    {
      searchTerm := value;
    }

    /** Opening or closing one modal; the other two flags keep their values. */
    method SetModal(modal: Modal, open: bool)
      modifies this`showAddMovieModal, this`showAddReviewModal, this`showEditMovieModal
      ensures ModalOpen(modal) == open
      ensures forall other :: other != modal ==> ModalOpen(other) == old(ModalOpen(other))
    {
      match modal
      case AddMovieModal => showAddMovieModal := open;
      case AddReviewModal => showAddReviewModal := open;
      case EditMovieModal => showEditMovieModal := open;
    }

    /** Typing in the add/edit movie form. */
    method SetNewMovie(form: MovieForm)
      modifies this`newMovie
      ensures newMovie == form
    {
      newMovie := form;
    }

    /** Typing in (or picking a movie in) the add-review form. */
    method SetNewReview(draft: ReviewDraft)
      modifies this`newReview
      ensures newReview == draft
    {
      newReview := draft;
    }

    /** Deleting movie `id`: on success every movie with that identifier leaves the list;
        on failure nothing changes. */
    method HandleDeleteMovie(id: MovieId, outcome: Response<()>) returns (sent: Request)
      modifies this`movies
      ensures sent == DeleteMovie(id)
      ensures movies == if outcome.Ok? then RemoveById(old(movies), id) else old(movies)
    {
      sent := DeleteMovie(id);
      if outcome.Ok? {
        movies := RemoveById(movies, id);
      }
    }

    /** Starting an edit: remember the movie, copy its fields into the form, open the
        edit modal. The list is not touched. */
    method HandleEditMovieClick(movie: Movie)
      modifies this`currentMovieId, this`newMovie, this`showEditMovieModal
      ensures currentMovieId == Some(movie.id)
      ensures newMovie == MovieForm(movie.name, movie.releaseDate)
      ensures showEditMovieModal
    {
      currentMovieId := Some(movie.id);
      newMovie := MovieForm(movie.name, movie.releaseDate);
      showEditMovieModal := true;
    }

    /** Adding a movie: the form is sent as it stands, empty fields included. On success
        the server's record goes to the end of the list, the modal closes and the form is
        cleared; on failure nothing changes. */
    method HandleAddMovie(outcome: Response<Movie>) returns (sent: Request)
      modifies this`movies, this`showAddMovieModal, this`newMovie
      ensures sent == CreateMovie(old(newMovie))
      ensures outcome.Ok? ==> movies == old(movies) + [outcome.data] && !showAddMovieModal && newMovie == EmptyMovieForm
      ensures outcome.Failed? ==> movies == old(movies) && showAddMovieModal == old(showAddMovieModal) && newMovie == old(newMovie)
    {
      sent := CreateMovie(newMovie);
      if outcome.Ok? {
        movies := movies + [outcome.data];
        showAddMovieModal := false;
        newMovie := EmptyMovieForm;
      }
    }

    /** Updating the movie being edited. With an empty name or release date nothing is
        sent, an alert is shown and nothing changes. Otherwise the form is sent; on success
        the server's record replaces every movie carrying `currentMovieId`, the modal closes
        and the form is cleared; on failure an alert is shown and nothing changes. */
    method HandleUpdateMovie(outcome: Response<Movie>) returns (sent: Option<Request>, alerted: bool)
      modifies this`movies, this`showEditMovieModal, this`newMovie
      ensures old(newMovie.name) == [] || old(newMovie.releaseDate) == [] ==>
        sent == None && alerted &&
        movies == old(movies) && showEditMovieModal == old(showEditMovieModal) && newMovie == old(newMovie)
      ensures old(newMovie.name) != [] && old(newMovie.releaseDate) != [] ==>
        sent == Some(UpdateMovie(currentMovieId, old(newMovie))) && alerted == outcome.Failed?
      ensures old(newMovie.name) != [] && old(newMovie.releaseDate) != [] && outcome.Ok? ==>
        movies == ReplaceById(old(movies), currentMovieId, outcome.data) &&
        !showEditMovieModal && newMovie == EmptyMovieForm
      ensures outcome.Failed? ==>
        movies == old(movies) && showEditMovieModal == old(showEditMovieModal) && newMovie == old(newMovie)
    {
      if newMovie.name == [] || newMovie.releaseDate == [] {
        return None, true;
      }
      sent := Some(UpdateMovie(currentMovieId, newMovie));
      alerted := false;
      match outcome
      case Ok(updated) =>
        movies := ReplaceById(movies, currentMovieId, updated);
        showEditMovieModal := false;
        newMovie := EmptyMovieForm;
      case Failed =>
        alerted := true;
    }

    /** Adding a review from the catalog view: the draft is sent as it stands. On success
        the modal closes and the draft is cleared; the movie list is never touched. */
    method HandleAddReview(outcome: Response<Review>) returns (sent: Request)
      modifies this`showAddReviewModal, this`newReview
      ensures sent == CreateReview(old(newReview))
      ensures outcome.Ok? ==> !showAddReviewModal && newReview == EmptyReviewDraft
      ensures outcome.Failed? ==> showAddReviewModal == old(showAddReviewModal) && newReview == old(newReview)
    {
      sent := CreateReview(newReview);
      if outcome.Ok? {
        showAddReviewModal := false;
        newReview := EmptyReviewDraft;
      }
    }
  }
}
