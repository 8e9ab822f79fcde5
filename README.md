# Movie catalog client: cache reconciliation and local search

This project models the two views of a single-page movie-review client. The
**catalog view** (`Home`) holds the movie list, a title search box, three modal
flags, an add/edit movie form, an add-review form and the identifier of the movie
being edited. The **detail view** (`MovieDetails`) holds one movie, its reviews,
the review list shown after a comment search, the search box and a review form.

Every handler is a transition on the view's state, taken where the remote service
has answered. The answer is a parameter, `Response<T> = Ok(data) | Failed`. Each
handler returns the request it sends, or `None` when a client-side check stops it,
and an `alerted` flag where the source calls `alert`. The list reconciliation is
done by pure sequence functions:

- the title and comment searches (`filter` with a lower-cased `includes`);
- remove-by-id (`filter`);
- replace-by-id (`map`);
- append (`[...xs, x]`).

Generic `Filter` and `Map` functions carry the sequence facts: membership,
multiplicity, order, concatenation, idempotence, commutation and length.

Files:

- `seqs.dfy` (module `Seqs`): `Filter`, `Map` and their lemmas.
- `text.dfy` (module `Text`): ASCII lower-casing, JavaScript's `includes`, and the case-insensitive match.
- `records.dfy` (module `Records`): `Movie`, `Review`, `Option`.
- `remote.dfy` (module `Remote`): `Response`.
- `home.dfy` (module `Home`): the catalog view's list functions, their lemmas, and class `HomeState`.
- `movie_details.dfy` (module `MovieDetails`): the detail view's functions, their lemmas, and class `DetailsState`.
- `scenarios.dfy` (module `Scenarios`): client methods that exercise the handlers' contracts on concrete inputs: creating "Dune", an update with an empty name, deleting movie 3, and a review by Ann for movie 1.

Behaviour of the source kept as written:

- The three modal flags are independent (src/components/Home.js:9-11). `SetModal` changes only the flag it names.
- A failed movie load is only logged (src/components/Home.js:19). The list keeps its previous value, which is empty at mount.

## Model

| member | source | states |
|---|---|---|
| Text.MatchesTerm | src/components/Home.js:113 | The match holds exactly when the lower-cased term occurs as a contiguous block in the lower-cased text. An empty term matches every text. |
| Text.Lower | src/components/Home.js:113 | `toLowerCase` on one character: an ASCII capital becomes the matching small letter; every other character is unchanged. No result is a capital. |
| Text.LowerStr | src/components/Home.js:113 | `toLowerCase` on a string keeps its length and lower-cases every position. |
| Text.Includes | src/components/Home.js:113 | `includes`: a prefix (in particular the empty string) is always included, and nothing longer than the text is. |
| Text.IncludesIffOccurs | src/components/Home.js:113 | `includes` is true exactly when the term occurs at some index of the text. |
| Text.MatchesTermIgnoresCase | src/components/MovieDetails.js:30 | Lower-casing the text or the term beforehand changes no match result. |
| Seqs.Filter | src/components/Home.js:112-114 | The filter result is no longer than the input. Each element of the result comes from the input and passes the predicate. |
| Seqs.FilterMembership | src/components/Home.js:112-114 | An element is in the filter result exactly when it is in the input and passes the predicate. |
| Seqs.FilterMultiplicity | src/components/Home.js:112-114 | An element that passes keeps every occurrence it has in the input. An element that fails keeps none. |
| Seqs.FilterIsSubsequence | src/components/Home.js:112-114 | The filter result is a subsequence of the input, so order is kept. |
| Seqs.FilterAppend | src/components/Home.js:112-114 | Filtering `a + b` gives the filter of `a` followed by the filter of `b`. |
| Seqs.FilterIdentity | src/components/Home.js:112-114 | A filter that every element passes returns its input unchanged. |
| Seqs.FilterIdempotent | src/components/MovieDetails.js:29-31 | Filtering twice with the same predicate gives the same result as filtering once. |
| Seqs.FilterCommutes | src/components/Home.js:29 | Two filters give the same result in either order. |
| Seqs.FilterLength | src/components/Home.js:29 | The result length plus the number of rejected elements equals the input length. |
| Seqs.Map | src/components/Home.js:58-60 | `map` keeps the length, and position `i` holds `f` applied to input position `i`. |
| Home.Search | src/components/Home.js:111-114 | A movie is shown exactly when it is loaded and its lower-cased name contains the lower-cased term. An empty term shows every loaded movie. |
| Home.SearchKeepsOrder | src/components/Home.js:111-114 | The shown movies keep their loaded order. Each matching movie appears as often as it was loaded; no other movie appears. |
| Home.SearchIdempotent | src/components/Home.js:111-114 | Searching the shown list again with the same term gives the same list. |
| Home.SearchAfterAdd | src/components/Home.js:43 | After an add, the shown list is the old shown list plus, at the end, the new movie if its name matches. |
| Home.SearchAfterDelete | src/components/Home.js:29 | Delete then search gives the same list as search then delete. |
| Home.RemoveById | src/components/Home.js:26-30 | After a delete, no movie with that id remains. Every other movie remains as often as before, in its original relative order. |
| Home.RemoveByIdLength | src/components/Home.js:26-30 | With unique ids, deleting a present id shortens the list by exactly one. Deleting an absent id leaves the list unchanged. |
| Home.RemoveByIdKeepsUniqueIds | src/components/Home.js:29 | A delete keeps ids unique. |
| Home.ReplaceById | src/components/Home.js:58-60 | An update keeps the length. Each slot with the target id holds the server's record; every other slot is unchanged. |
| Home.ReplaceByIdAt | src/components/Home.js:58-60 | With unique ids, updating the movie at `k` gives the old list with slot `k` replaced by the server's record. |
| Home.ReplaceByIdAbsent | src/components/Home.js:56-60 | A target that is absent from the list, or still `null`, changes no movie. |
| Home.ReplaceThenRemove | src/components/Home.js:58-60 | When the server's record keeps the target id, removing that id from the updated list and from the old list gives the same list. |
| Home.ReplaceByIdKeepsUniqueIds | src/components/Home.js:58-60 | An update answered with a record carrying the target id keeps ids unique. |
| Home.HomeState.constructor | src/components/Home.js:7-14 | Initial state: empty list and term, all modals closed, both forms empty, no edit target. |
| Home.HomeState.Displayed | src/components/Home.js:111-114 | The movies on screen are those loaded whose name matches the current term. All loaded movies show when the term is empty. |
| Home.HomeState.LoadMovies | src/components/Home.js:16-20 | Sends GET /movies. Success replaces the list; failure leaves it. Nothing else changes. |
| Home.HomeState.HandleSearchChange | src/components/Home.js:22-24 | Sets the term and changes nothing else. |
| Home.HomeState.SetModal | src/components/Home.js:85-92 | Opening or closing one modal leaves the other two flags as they were. |
| Home.HomeState.SetNewMovie | src/components/Home.js:142-148 | The movie form takes the typed values. |
| Home.HomeState.SetNewReview | src/components/Home.js:202-226 | The review draft takes the typed or picked values. |
| Home.HomeState.HandleDeleteMovie | src/components/Home.js:26-32 | Sends DELETE for the id. Success applies `RemoveById`; failure leaves the list. No other field changes. |
| Home.HomeState.HandleEditMovieClick | src/components/Home.js:34-38 | Sets the edit target to the movie's id, copies its name and date into the form, and opens the edit modal. The list is not touched. |
| Home.HomeState.HandleAddMovie | src/components/Home.js:40-48 | Always sends the form as it stands, even with empty fields. Success appends the server's record last, closes the modal and empties the form. Failure changes nothing. |
| Home.HomeState.HandleUpdateMovie | src/components/Home.js:50-69 | An empty name or date means no request, an alert, and no state change. Otherwise sends PUT for the current target. Success applies `ReplaceById`, closes the edit modal and empties the form. Failure shows an alert and changes nothing. |
| Home.HomeState.HandleAddReview | src/components/Home.js:71-78 | Sends the draft unvalidated. Success closes the review modal and empties the draft. Failure changes nothing. The list is never touched. |
| MovieDetails.FilterReviews | src/components/MovieDetails.js:28-33 | A review is shown exactly when it is loaded and its lower-cased comments contain the lower-cased term. An empty term shows every loaded review. |
| MovieDetails.FilterReviewsKeepsOrder | src/components/MovieDetails.js:28-33 | Shown reviews keep their loaded order. Each matching review appears as often as it was loaded; no other review appears. |
| MovieDetails.FilterReviewsIdempotent | src/components/MovieDetails.js:28-33 | Filtering the shown reviews again with the same term gives the same list. |
| MovieDetails.FilterReviewsAfterAppend | src/components/MovieDetails.js:44 | After an append, the effect's result is the old result plus, at the end, the new review if its comments match. |
| MovieDetails.AppendAgreesWithEffect | src/components/MovieDetails.js:44-45 | From a synced state, appending the review unconditionally to the shown list gives the effect's result exactly when the review matches the term. |
| MovieDetails.FormComplete | src/components/MovieDetails.js:36 | The submit check passes exactly when each of the three fields is non-empty. The cleared form never passes. |
| MovieDetails.BuildReview | src/components/MovieDetails.js:40 | The submitted record carries the form's three fields and the route's movie id, with no server-assigned id. |
| MovieDetails.DetailsState.constructor | src/components/MovieDetails.js:5-11 | Initial state: no movie, empty lists, form and term, and the filter invariant holds. |
| MovieDetails.DetailsState.SetRoute | src/components/MovieDetails.js:6 | The route's movie id changes. |
| MovieDetails.DetailsState.LoadMovie | src/components/MovieDetails.js:15-17 | Sends GET for the route's movie. Success stores it; failure leaves the previous value. |
| MovieDetails.DetailsState.LoadReviews | src/components/MovieDetails.js:20-25 | Sends GET for the movie's reviews. Success sets both the loaded and the shown list to the same fetched list. Failure leaves both. |
| MovieDetails.DetailsState.RunFilterEffect | src/components/MovieDetails.js:28-33 | The shown list becomes the comment search of the loaded list. Running the effect again changes nothing. |
| MovieDetails.DetailsState.SetSearchTerm | src/components/MovieDetails.js:62 | Sets the term. |
| MovieDetails.DetailsState.SetReviewForm | src/components/MovieDetails.js:82-93 | The form takes the typed values. |
| MovieDetails.DetailsState.HandleAddReview | src/components/MovieDetails.js:35-49 | An empty field means no request, an alert, and no state change. Otherwise sends `BuildReview(form, id)`. Success appends that record, not the server's answer, to both lists and empties the form. Failure changes nothing. |
| MovieDetails.DetailsState.SubmitReview | src/components/MovieDetails.js:28-49 | Submit, then the effect it triggers. Sends `BuildReview(form, id)` exactly when the form is complete, and alerts exactly when it is not. The form is cleared only after a successful send. After success the filter invariant holds again. From a synced state, the shown list gains the new review exactly when it matches. |

## Left out

- The HTTP calls themselves: URLs, JSON and the remote service. Each call is a `Response` parameter, and the request a handler sends is returned as a value.
- React rendering, JSX and markup.
- The scheduling of `useEffect`: the filter effect is a method that callers run after the state it depends on changed.
- The asynchronous interleaving of promise callbacks and the stale `movies`/`reviews` closures. Each handler is one atomic transition on the current state.
- `console.error` is not modelled. `alert` is only an `alerted` result flag.
- `new Date(...).toLocaleDateString()` and the display fallbacks "No ratings yet" and "Anonymous". These only affect display.
- Text.Lower: lower-cases ASCII letters only, because Unicode case mapping in JavaScript's `toLowerCase` is not modelled.
- Ratings are the strings the forms hold. The numeric 1–10 range is not checked by the source and is not modelled.
- src/App.js: routing only. The route parameter is the detail view's `id` field.
