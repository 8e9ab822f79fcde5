/** Clients of the two views that exercise the handlers' contracts on concrete inputs:
    creating "Dune", an update with an empty name, deleting movie 3, and a review by Ann
    for movie 1. */
module Scenarios {
  import opened Records
  import opened Remote
  import Home
  import MovieDetails

  /** Creating "Dune": the server's record is the one new entry and the form closes. */
  method CreateDune() {
    var view := new Home.HomeState();
    view.SetModal(Home.AddMovieModal, true);
    view.SetNewMovie(Home.MovieForm("Dune", "2021-10-22"));
    var created := Movie("1", "Dune", "2021-10-22", None);
    var sent := view.HandleAddMovie(Ok(created));
    assert sent == Home.CreateMovie(Home.MovieForm("Dune", "2021-10-22"));
    assert view.movies == [created];
    assert !view.ModalOpen(Home.AddMovieModal);
  }

  /** Updating with an empty name sends nothing and leaves the edit form open. */
  method UpdateWithEmptyName(movie: Movie, answer: Response<Movie>) {
    var view := new Home.HomeState();
    view.HandleEditMovieClick(movie);
    view.SetNewMovie(Home.MovieForm("", "2021-10-22"));
    var sent, alerted := view.HandleUpdateMovie(answer);
    assert sent == None && alerted;
    assert view.showEditMovieModal;
  }

  /** Deleting movie 3 when it is loaded removes it and shortens the list by one. */
  method DeleteMovieThree(first: Movie, third: Movie)
    requires first.id == "1" && third.id == "3"
  {
    var view := new Home.HomeState();
    var _ := view.LoadMovies(Ok([first, third]));
    var _ := view.HandleDeleteMovie("3", Ok(()));
    assert Home.UniqueIds([first, third]) && Home.HasId([first, third], "3") by {
      assert [first, third][1].id == "3";
    }
    Home.RemoveByIdLength([first, third], "3");
    assert |view.movies| == 1;
    assert third !in view.movies;
  }

  /** A complete review for movie "1" lands in both lists, tagged with the movie, and the
      form is cleared. */
  method AddReviewForMovieOne(answer: Review) {
    var view := new MovieDetails.DetailsState("1");
    var form := MovieDetails.ReviewForm("Ann", "8", "Great film");
    view.SetReviewForm(form);
    var sent, alerted := view.HandleAddReview(Ok(answer));
    var added := MovieDetails.BuildReview(form, "1");
    assert added.movieId == "1";
    assert view.reviews == [added] && view.filteredReviews == [added];
    assert view.reviewForm == MovieDetails.EmptyReviewForm;
  }
}
