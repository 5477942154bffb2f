# MediaMatch in Dafny

MediaMatch is a movie-recommendation web application. It has two client-side
stores. The account store holds the signed-in session, the directory of
registered accounts kept in browser storage, and the viewer's watchlist,
watched list, follows and reviews. The catalogue store holds the
recommendation list, its mood and genre filtered view, the sort key and
direction, the pagination cursor and the detail selection. A service layer
turns the movie provider's records into catalogue items and derives each
item's moods from its genre ids. The pages route clicks and form input to
the stores: the dashboard, the discover page, the sign-in dialog, the detail
dialog and the review panel.

The project models each of these as a Dafny module:

| module | models |
|---|---|
| `Tmdb` | the service layer: the genre-to-mood and mood-to-genre tables, mood derivation, record formatting, the fallback page, browsing by mood, movie details |
| `RecommendationStore` | the catalogue store, as a `class Store` whose methods update its fields; the sort order and the filtered view as functions |
| `UserStore` | the account store, as a `class Store`; sign-in and sign-up errors, profile merges and the list updates as functions |
| `AuthModal` | the sign-in / sign-up dialog's validation, change and submit handlers |
| `DetailModal` | the detail dialog's watchlist, watched and rating handlers |
| `DashboardPage` | the mood buttons, sort, search and the mood-loading effect |
| `DiscoverPage` | the genre chips and the search |
| `MovieReviews` | the review panel: which reviews show, the review form and the comment box |
| `JsString`, `Seqs`, `Wrappers` | JavaScript string behaviour the code relies on (`trim`, UTF-16 `length`, `toLowerCase`, string `<`, `toString`, `join`/`split`, the email regular expression, `encodeURIComponent`), keyed list operations (`filter`, `find`, `findIndex`, `some`, `splice`), and `Option` |

Responses from the movie provider, clock readings (`now`) and generated
identifiers (`newId`) are parameters. The list services reach the catalogue
store as a function `api` from the request it makes to the page it receives.
Every service catches its own errors and returns its fallback value, so the
store's own `catch` branches never run and are not modelled.

Some behaviours of the code look unintended; the model follows the code:

- `login` does not write the new `lastLogin` back to the stored account. The
  model stores nothing on sign-in.
- `loadMovieDetails` merges the detail record over the list item. That resets
  the viewer's `userRating` to null and replaces the item's genre ids with
  genre names (`RecommendationStore.MergeTakesDetailRating`).
- `setSorting` re-orders only the full list. While a mood is selected the
  dashboard shows the filtered view, so a sort click does not change what is
  on screen (`DashboardPage.HandleSort`).
- The "sad", "dramatic", "action-packed" and "spooky" mood buttons load
  movies from genres, but the genre table never gives any movie those moods.
  The movies appear only because loading replaces the filtered view
  (`DashboardPage.UnderivedMoodLoadsUntaggedMovies`).

## Model

| member | source | states |
|---|---|---|
| `JsString.BlankIffAllWhitespace` | src/features/dashboard/DashboardPage.jsx:91 | `s.trim()` is empty exactly when every character of `s` is JavaScript whitespace |
| `JsString.LexLessTotal` | src/store/recommendationStore.js:61-64 | two different strings are always ordered one way or the other by string `<`; with `LexLessIrreflexive` and `LexLessTransitive` it is a strict total order |
| `JsString.SplitJoin` | src/services/tmdbApi.js:197 | joining separator-free parts with `,` and splitting the result back gives the same parts |
| `JsString.EncodedComponentIsSafe` | src/store/userStore.js:44 | `encodeURIComponent` output holds only unreserved characters and well-formed escapes (every `%` is followed by two upper-case hex digits), so never `&`, `=` or `#` |
| `Tmdb.MoodsOf` | src/services/tmdbApi.js:138-168 | the moods of a genre list, in insertion order; `GetMoodFromGenres` is proved to compute it, and `MoodsOfMembership`, `MoodsOfNoDuplicates`, `MoodsOfSameGenres` and `UnknownGenreIgnored` state its properties |
| `Tmdb.GetMoodFromGenres` | src/services/tmdbApi.js:138-168 | the loop that adds each genre's moods to an insertion-ordered set computes `MoodsOf` of the ids |
| `Tmdb.MoodsOfMembership` | src/services/tmdbApi.js:139-167 | a mood is derived exactly when the table entry of some given genre lists it; no ids give no moods |
| `Tmdb.MoodsOfNoDuplicates` | src/services/tmdbApi.js:160-167 | the derived moods hold each mood once |
| `Tmdb.MoodsOfSameGenres` | src/services/tmdbApi.js:160-167 | as a set, the derived moods depend only on which ids are given, not on their order or repeats |
| `Tmdb.UnknownGenreIgnored` | src/services/tmdbApi.js:162-163 | an id missing from the genre table can be removed from any position without changing the derived moods |
| `Tmdb.UnderivedMoodsNeverDerived` | src/services/tmdbApi.js:139-187 | "sad", "dramatic", "action-packed" and "spooky" have genres in the mood-to-genre table, yet no genre list derives them; genre 18 is browsed for "sad" but does not give "sad" |
| `Tmdb.FormatMovieData` | src/services/tmdbApi.js:81-95 | an item keeps the record's id, title and overview; its rating is half the provider's, so a 0-10 vote average becomes 0-5; its image is the poster path or the placeholder; its genre tags carry the record's genre ids in order and its moods are `MoodsOf` those ids, hence derived from its genres and without duplicates; it has no viewer rating and no director |
| `Tmdb.ServicePage` | src/services/tmdbApi.js:49-79 | a failed request gives the fallback page (no movies, 0 pages, page 1); a received page keeps the provider's counters, and its item i is result i formatted; every item's moods are derived from its genres |
| `Tmdb.MoodRequest` | src/services/tmdbApi.js:189-201 | no request is sent exactly when the mood has no genres; otherwise the request asks for the page, sorted by popularity, with at least 100 votes |
| `Tmdb.WithGenresRoundTrip` | src/services/tmdbApi.js:197 | the `with_genres` parameter splits back into the mood's genre ids, in order |
| `Tmdb.GetMoviesByMood` | src/services/tmdbApi.js:189-212 | a mood with no genres gives the fallback page; any other mood gives the service page for the provider's answer to `MoodRequest`; every item returned has moods derived from its genres |
| `Tmdb.UnknownMoodSendsNothing` | src/services/tmdbApi.js:191-192 | for a mood outside the table the answer is the fallback page whatever the provider would have returned |
| `Tmdb.FirstDirector` | src/services/tmdbApi.js:106 | `crew.find` for the job 'Director': the index found is the first crew member with that job, and none is found only when nobody has it |
| `Tmdb.DirectorName` | src/services/tmdbApi.js:106-118 | the name of the crew member `FirstDirector` finds, or 'Unknown'; `DetailsDirectorAndCast` states both cases in terms of the crew list |
| `Tmdb.TopCast` | src/services/tmdbApi.js:124-129 | the cast is the first five credits, or all of them if there are fewer, each converted in order |
| `Tmdb.GetMovieDetails` | src/services/tmdbApi.js:97-135 | the service returns null exactly when either request fails; a detail item has no viewer rating, popularity or vote count |
| `Tmdb.DetailsDirectorAndCast` | src/services/tmdbApi.js:106-129 | the director is the first crew member credited as 'Director', or 'Unknown'; the cast is at most five credits, taken in order from the credits |
| `RecommendationStore.SortKeyOf` | src/store/recommendationStore.js:34-59 | the comparison key: rating, year, lower-cased title, votes, runtime with 0 for none, and popularity for any other key; the order it induces is a strict total order (`KeyLessIrreflexive`, `KeyLessTransitive`, `KeyLessTotal`) |
| `RecommendationStore.UnorderedIffSameKey` | src/store/recommendationStore.js:34-64 | neither of two items comes before the other exactly when their sort keys are equal |
| `RecommendationStore.PrecedesTransitive` | src/store/recommendationStore.js:61-64 | the order of the comparator is transitive, in both directions |
| `RecommendationStore.InsertKeepsSorted` | src/store/recommendationStore.js:31-65 | putting an item after everything that may precede it keeps a sorted list sorted |
| `RecommendationStore.SortMovies` | src/store/recommendationStore.js:31-65 | the sorted list is ordered by the key and direction and is a permutation of the input |
| `RecommendationStore.SortedPermutationUnique` | src/store/recommendationStore.js:31-65 | when no two items share a key, there is only one sorted permutation, so the result does not depend on the sort algorithm |
| `RecommendationStore.SortedDistinctIsStrict` | src/store/recommendationStore.js:61-64 | with distinct keys a sorted list is strictly increasing ('asc') or strictly decreasing (any other direction) |
| `RecommendationStore.AscendingThenDescendingReverses` | src/store/recommendationStore.js:61-64 | with distinct keys the descending sort is the reverse of the ascending sort |
| `RecommendationStore.Keeps` | src/store/recommendationStore.js:75-86 | an item stays in the view when it matches a selected genre (if any) and carries the selected mood (if any); `FilterView` and `FilterViewExact` keep exactly such items |
| `RecommendationStore.FilterView` | src/store/recommendationStore.js:74-108 | the filtered view keeps items in list order and keeps only items that match a selected genre (when any is selected) and carry the selected mood (when one is selected) |
| `RecommendationStore.FilterViewExact` | src/store/recommendationStore.js:74-108 | every item that matches the selection appears in the view as often as in the list, and no other item appears |
| `RecommendationStore.FilterViewWithoutSelection` | src/store/recommendationStore.js:75-86 | with no mood and no genres selected the view is the whole list |
| `RecommendationStore.UnderivedMoodFiltersEverything` | src/store/recommendationStore.js:85-86 | selecting an underived mood filters out every item whose moods come from its genres |
| `RecommendationStore.WithUserRating` | src/store/recommendationStore.js:209-213 | every item with the id takes the rating; every other item and every other field is unchanged |
| `RecommendationStore.RatingKeepsItems` | src/store/recommendationStore.js:209-213 | rating changes nothing but `userRating`, so derived moods are preserved |
| `RecommendationStore.MergeRecord` | src/store/recommendationStore.js:186 | `{...item, ...details}`: the detail record's fields over the item's; `MergeTakesDetailRating` states which fields win |
| `RecommendationStore.MergeDetails` | src/store/recommendationStore.js:184-189 | every item with the id becomes the item merged with the detail record; others are unchanged |
| `RecommendationStore.MergeTakesDetailRating` | src/store/recommendationStore.js:184-189 | a merged item takes the detail record's `userRating` (null); it keeps its own popularity and vote count unless the record carries them, which no record from the detail service does |
| `RecommendationStore.Store.constructor` | src/store/recommendationStore.js:5-18 | the initial state: empty lists, no selection, page 1 of 1, more to load, sorted by popularity descending |
| `RecommendationStore.Store.SetRecommendations` | src/store/recommendationStore.js:21-26 | both lists become the movies; the cursor resets to page 1 with nothing more to load |
| `RecommendationStore.Store.SetSorting` | src/store/recommendationStore.js:30-72 | the list becomes a sorted permutation of itself; the filtered view is untouched |
| `RecommendationStore.Store.SetSelectedGenres` | src/store/recommendationStore.js:74-88 | the genres are stored and the view is recomputed from the full list with the current mood |
| `RecommendationStore.Store.SetSelectedMood` | src/store/recommendationStore.js:90-108 | the mood is stored and the view is recomputed from the full list with the current genres |
| `RecommendationStore.Store.InitializeStore` | src/store/recommendationStore.js:111-129 | the list is trending page 1 sorted by popularity descending; the cursor takes the provider's counters; more remains exactly when the current page is below the last |
| `RecommendationStore.Store.SearchMovies` | src/store/recommendationStore.js:160-177 | the query is kept and page 1 of its results replaces the list, with the provider's counters |
| `RecommendationStore.Store.LoadMore` | src/store/recommendationStore.js:132-157 | nothing changes while loading or on the last page; otherwise the next page of the active search, or of trending, is appended and the cursor moves on by one |
| `RecommendationStore.Store.LoadMovieDetails` | src/store/recommendationStore.js:180-195 | a null detail record changes nothing; otherwise it is merged into the list, selected and the dialog opens |
| `RecommendationStore.Store.GetRecommendations` | src/store/recommendationStore.js:197-200 | the filtered view while a mood or genres are selected, else the full list; `ShownIsFiltered` states that this is the full list filtered by the selection, and `DashboardPage.HandleSort` that sorting leaves it alone while a mood is selected |
| `RecommendationStore.Store.ShownIsFiltered` | src/store/recommendationStore.js:197-200 | while the view is in step with the list, `getRecommendations` shows the list filtered by the current selection |
| `RecommendationStore.Store.SetUserRating` | src/store/recommendationStore.js:209-213 | the list takes the rating on every item with the id |
| `RecommendationStore.ThreePageScenario` | src/store/recommendationStore.js:111-157 | trending page 1 of 3 followed by two `loadMore` calls holds all three pages' items: page 1's items, sorted by popularity, followed by pages 2 and 3 in order, and nothing more to load |
| `UserStore.AvatarFor` | src/store/userStore.js:44 | the address is the `name=` prefix, then exactly `encodeURIComponent(name)`, then the `&background=random` suffix, and the name part holds no `&`, `=` or `#`, so no name can add or end a query parameter |
| `UserStore.LoginError` | src/store/userStore.js:23-37 | the sign-in refusals in source order; `LoginAcceptsExactlyStoredCredentials` and `LoginMatchesSomeAccount` state when none applies |
| `UserStore.RegisterError` | src/store/userStore.js:69-89 | the sign-up refusals in source order; `RegisterKeepsEmailsUnique`, `RegisterThenLogin` and `RegisterTwiceRejected` state their consequences |
| `UserStore.NewAccount` | src/store/userStore.js:92-102 | the stored account of a sign-up; `RegisterThenLogin` shows its credentials sign in |
| `UserStore.LoginSession` | src/store/userStore.js:40-49 | the session is the account without its password; an empty avatar is replaced by the generated one, and `lastLogin` is the sign-in time |
| `UserStore.LoginAcceptsExactlyStoredCredentials` | src/store/userStore.js:23-37 | with unique emails, sign-in succeeds exactly when both fields are given and some stored account has that email and password |
| `UserStore.LoginMatchesSomeAccount` | src/store/userStore.js:29-37 | even with duplicate emails, a successful sign-in matched the first account with that email, and its password |
| `UserStore.RegisterKeepsEmailsUnique` | src/store/userStore.js:69-104 | a successful sign-up has a name, a password of at least 6 UTF-16 units and a well-formed email, and keeps the directory's emails unique |
| `UserStore.RegisterThenLogin` | src/store/userStore.js:19-125 | signing in with credentials just registered succeeds, finds the new account, and opens the sign-up session again at the new time |
| `UserStore.RegisterTwiceRejected` | src/store/userStore.js:86-89 | an email cannot be registered twice |
| `UserStore.MergeAccount` | src/store/userStore.js:152 | `{...account, ...updates}` over the five profile fields; `MergeIdempotent` and `ProfileEditKeepsCredentials` state its properties |
| `UserStore.MergeIdempotent` | src/store/userStore.js:152-160 | applying a profile update twice is applying it once; the stored account and the session agree on the fields changed; id and password are kept |
| `UserStore.ProfileEditKeepsCredentials` | src/store/userStore.js:146-154 | an update without an email keeps emails unique and changes no sign-in outcome |
| `UserStore.DeleteThenLoginFails` | src/store/userStore.js:177-189 | removing an account keeps emails unique, and its email no longer signs in |
| `UserStore.WithLike` | src/store/userStore.js:228-236 | each review with the id gains one like; every other review is unchanged |
| `UserStore.LikeAddsOnePerMatch` | src/store/userStore.js:228-236 | the total number of likes grows by the number of reviews with the id, and no review loses a like |
| `UserStore.WithComment` | src/store/userStore.js:238-254 | each review with the id gets the comment appended; every other review is unchanged |
| `UserStore.CommentAppendsLast` | src/store/userStore.js:238-254 | the new comment comes after all existing comments, which are kept in order; likes and text are unchanged |
| `UserStore.WithWatchedRating` | src/store/userStore.js:297-303 | each watched entry of the movie takes the rating; others are unchanged |
| `UserStore.RatingKeepsWatchedIds` | src/store/userStore.js:297-303 | re-rating keeps the set of watched movies |
| `UserStore.Store.constructor` | src/store/userStore.js:7-17 | signed out, not loading, no error, empty lists, over the stored accounts |
| `UserStore.Store.Login` | src/store/userStore.js:19-63 | success exactly when no sign-in error applies; success opens the session of the first account with the email; a refusal keeps the session and records the error; never left loading |
| `UserStore.Store.Register` | src/store/userStore.js:65-125 | success exactly when no sign-up error applies; success appends the new account and signs it in without its password; a refusal changes neither directory nor session and records the error |
| `UserStore.Store.Logout` | src/store/userStore.js:127-138 | the session and all of the viewer's lists are cleared; the directory is kept |
| `UserStore.Store.UpdateProfile` | src/store/userStore.js:140-169 | 'Not authenticated' without a session; 'User not found' when no stored account has the session's id; otherwise the first such account and the session both take the update |
| `UserStore.Store.DeleteAccount` | src/store/userStore.js:171-199 | the same two refusals, then 'Invalid password', each leaving the directory, the session and all six lists as they were; otherwise the account is removed and the viewer is signed out with all six lists cleared |
| `UserStore.Store.FollowUser` | src/store/userStore.js:201-205 | the user is appended to the follow list |
| `UserStore.Store.UnfollowUser` | src/store/userStore.js:207-211 | every follow entry with the id is removed, and the others keep their order |
| `UserStore.Store.AddReview` | src/store/userStore.js:213-226 | a review by the viewer, with no likes and no comments, is appended |
| `UserStore.Store.LikeReview` | src/store/userStore.js:228-236 | the reviews take the like |
| `UserStore.Store.AddComment` | src/store/userStore.js:238-254 | the viewer's comment is appended to the matching reviews; without a session nothing matches and nothing changes |
| `UserStore.Store.UpdateFavoriteGenres` | src/store/userStore.js:256-260 | the session's favourite genres are replaced |
| `UserStore.Store.IsInWatchlist` | src/store/userStore.js:305-307 | some watchlist entry has the id; `AddToWatchlist`, `RemoveFromWatchlist` and `AddToWatched` state how each changes it |
| `UserStore.Store.IsWatched` | src/store/userStore.js:309-311 | some watched entry has the id; `AddToWatched` and `RemoveFromWatched` state how each changes it, and `RatingKeepsWatchedIds` that re-rating does not |
| `UserStore.Store.AddToWatchlist` | src/store/userStore.js:262-270 | an entry is appended, and the movie is then in the watchlist |
| `UserStore.Store.RemoveFromWatchlist` | src/store/userStore.js:272-276 | every entry of the movie is removed, and the movie is no longer in the watchlist |
| `UserStore.Store.AddToWatched` | src/store/userStore.js:278-289 | a watched entry carrying the rating is appended, the movie leaves the watchlist, and it is then watched |
| `UserStore.Store.RemoveFromWatched` | src/store/userStore.js:291-295 | every watched entry of the movie is removed, and the movie is no longer watched |
| `UserStore.Store.UpdateMovieRating` | src/store/userStore.js:297-303 | the watched entries of the movie take the rating |
| `UserStore.SignUpAndBackIn` | src/store/userStore.js:65-138 | with an empty directory, sign up, sign out and sign in again: both succeed, and the second session is the first at the new time |
| `AuthModal.ValidateForm` | src/features/auth/AuthModal.jsx:17-46 | each field has an error exactly when its check fails, with the message the dialog shows; the form is valid exactly when there are no errors, and exactly when it passes every check of the mode |
| `AuthModal.SignUpAcceptanceIsStricter` | src/features/auth/AuthModal.jsx:17-46 | a sign-up form that passes also passes as a sign-in form |
| `AuthModal.AcceptedSignUpReachesDuplicateCheck` | src/features/auth/AuthModal.jsx:17-46 | after the dialog's checks, the account store can only refuse a sign-up because the email is already registered |
| `AuthModal.AcceptedSignInHasBothFields` | src/features/auth/AuthModal.jsx:20-30 | after the dialog's checks, sign-in is never refused for an empty field |
| `AuthModal.HandleChange` | src/features/auth/AuthModal.jsx:67-79 | the named field takes the value and the others are kept; that field's error, if present, becomes empty; other errors are kept |
| `AuthModal.HandleSubmit` | src/features/auth/AuthModal.jsx:48-65 | nothing reaches the store unless the form is valid; then sign-in leaves the directory alone and opens the first matching account's session, or keeps the session and records the error; sign-up appends the new account and signs it in, or changes nothing but the error; on success the form resets |
| `DetailModal.HandleWatchlistClick` | src/features/dashboard/DetailModal.jsx:43-49 | the movie's watchlist membership flips: a listed movie is removed, an unlisted one is appended |
| `DetailModal.HandleWatchedClick` | src/features/dashboard/DetailModal.jsx:51-57 | the movie's watched state flips; un-watching removes its watched entries and keeps the watchlist; recording appends an entry with the item's own rating and removes only that movie from the watchlist |
| `DetailModal.HandleRate` | src/features/dashboard/DetailModal.jsx:189-194 | the catalogue takes the rating; afterwards the movie is watched; a movie not yet watched is recorded with that rating and leaves the watchlist, while a watched one keeps its entry |
| `DashboardPage.MoodFilters` | src/features/dashboard/DashboardPage.jsx:7-23 | the fifteen mood buttons in display order; `OfferedMoodsHaveGenres` and `UnderivedMoodsAreOffered` state how they relate to the genre tables |
| `DashboardPage.OfferedMoodsHaveGenres` | src/features/dashboard/DashboardPage.jsx:7-23 | every mood button has genres to browse, so a click always sends a request |
| `DashboardPage.UnderivedMoodsAreOffered` | src/features/dashboard/DashboardPage.jsx:7-23 | all four underived moods have a mood button |
| `DashboardPage.NextSortOrder` | src/features/dashboard/DashboardPage.jsx:96-98 | a new key sorts descending; the active key flips between 'asc' and 'desc' |
| `DashboardPage.SortClickTwiceRestores` | src/features/dashboard/DashboardPage.jsx:96-98 | two clicks on the active key restore its direction |
| `DashboardPage.HandleSort` | src/features/dashboard/DashboardPage.jsx:96-98 | the list is sorted by the clicked key in the new direction and keeps its items; with a mood selected the list on screen is unchanged |
| `DashboardPage.MoodAfterClick` | src/features/dashboard/DashboardPage.jsx:164 | clicking the active mood clears it; clicking any other mood selects that mood |
| `DashboardPage.MoodClickTwiceClears` | src/features/dashboard/DashboardPage.jsx:164 | clicking an inactive mood twice leaves no mood selected |
| `DashboardPage.HandleMoodClick` | src/features/dashboard/DashboardPage.jsx:164 | the store's mood becomes the clicked result and the view is refiltered |
| `DashboardPage.HandleAllClick` | src/features/dashboard/DashboardPage.jsx:188 | no mood is selected and the view is refiltered |
| `DashboardPage.ShouldSearchIffVisibleCharacter` | src/features/dashboard/DashboardPage.jsx:89-94 | a search is sent exactly when the term has a non-whitespace character |
| `DashboardPage.HandleSearch` | src/features/dashboard/DashboardPage.jsx:89-94 | a blank term changes nothing; otherwise the untrimmed term is searched, its first page replaces the list, the cursor takes the provider's counters, more pages are offered exactly when the page is not the last, and loading ends |
| `DashboardPage.LoadMoodBasedMovies` | src/features/dashboard/DashboardPage.jsx:64-87 | with a mood, page 1 of its movies replaces both lists, the cursor is page 1 with no more pages, and the page count, loading flag and sort settings are kept; without one the store is initialised again: trending page 1 sorted popularity-desc, the provider's counters, more pages exactly when page 1 is not the last, and loading ends |
| `DashboardPage.UnderivedMoodLoadsUntaggedMovies` | src/features/dashboard/DashboardPage.jsx:64-87 | the movies loaded for an underived mood never carry it, and refiltering on that mood empties the view |
| `DiscoverPage.ToggleGenre` | src/features/discover/DiscoverPage.jsx:73-79 | remove every occurrence of a selected id, or append an unselected one; the four `Toggle…` lemmas and `SelectionHasNoDuplicates` state its properties |
| `DiscoverPage.ToggleFlipsMembership` | src/features/discover/DiscoverPage.jsx:73-79 | the toggled genre's membership flips and every other genre's is kept |
| `DiscoverPage.ToggleKeepsOthersInOrder` | src/features/discover/DiscoverPage.jsx:73-79 | removal keeps the other ids, in order and with their counts; adding puts the genre last |
| `DiscoverPage.ToggleTwiceRestores` | src/features/discover/DiscoverPage.jsx:73-79 | toggling an unselected genre twice restores the selection |
| `DiscoverPage.ToggleKeepsNoDuplicates` | src/features/discover/DiscoverPage.jsx:73-79 | a toggle never introduces a duplicate |
| `DiscoverPage.SelectionHasNoDuplicates` | src/features/discover/DiscoverPage.jsx:39-79 | any run of chip clicks from the empty selection leaves each genre selected at most once |
| `DiscoverPage.HandleSearch` | src/features/discover/DiscoverPage.jsx:59-71 | the movies on the page after a search; `WhitespaceQueryIsNoOp` states both outcomes |
| `DiscoverPage.WhitespaceQueryIsNoOp` | src/features/discover/DiscoverPage.jsx:59-71 | a query of only whitespace keeps the movies on the page; any other query shows the service's answer |
| `MovieReviews.CanSubmitReview` | src/features/social/MovieReviews.jsx:114-162 | the submit guard: visible text and a star; `ReplayedRatingInRange` and `HandleSubmitReview` state what it admits |
| `MovieReviews.ReplayedRatingInRange` | src/features/social/MovieReviews.jsx:133-162 | with stars from the 1-5 row, the form's rating stays in 0-5, and a form that may be submitted is rated 1-5 |
| `MovieReviews.HandleSubmitReview` | src/features/social/MovieReviews.jsx:112-118 | a form with visible text and a star becomes the viewer's review of the movie and the form resets; otherwise nothing changes |
| `MovieReviews.HandleSubmitComment` | src/features/social/MovieReviews.jsx:9-15 | a comment with visible text goes on the review and the box clears; a blank one changes nothing |
| `MovieReviews.MovieReviewsOf` | src/features/social/MovieReviews.jsx:110 | the reviews shown for a movie; `MovieReviewsExact` and `SubmittedReviewShownLast` state its properties |
| `MovieReviews.MovieReviewsExact` | src/features/social/MovieReviews.jsx:110 | the panel shows exactly the reviews of the movie, in store order, each as often as stored |
| `MovieReviews.SubmittedReviewShownLast` | src/features/social/MovieReviews.jsx:110-118 | a review just added appears last in its movie's panel; other panels are unchanged |

## Left out

- HTTP requests (axios, the API key, `Promise.all`) are not modelled. Provider answers are parameters: `Fetched<T>` is a body or a failure.
- Browser storage is not modelled: `localStorage` reads and writes, JSON serialisation, and the persisted-state rehydration of `zustand/persist`. The directory is a field of the account store.
- Clocks (`new Date().toISOString()`, `Date.now()`) are parameters. `register` reads the clock twice, for `joinedDate` and `lastLogin`; the model uses one `now` for both. `addComment` reads `Date.now()` and `new Date()` once per matching review; the model gives every matching review the same comment.
- Concurrency is not modelled. Each asynchronous store action is one atomic step, so interleavings and `isLoading` between steps are out of scope, as is the infinite-scroll `IntersectionObserver`.
- Release-year parsing from date strings and floating-point rounding are out. Ratings are reals and years arrive as parsed integers.
- `toLowerCase` lower-cases ASCII letters only, and string `<` compares code points, not UTF-16 code units.
- `RecommendationStore.SortMovies`: this is not the engine's sort algorithm, and ties may end up in a different order. Only the ordering and the permutation are stated, plus a unique outcome when keys are distinct.
- `RecommendationStore.SortKeyOf`: JavaScript cannot order an 'N/A' year or an absent count (`NaN` comparisons), so its comparator is inconsistent there. The model treats such keys as the least key instead: those items come first in ascending order and last in descending order.
- The `item.genres` branch of the genre filter is not modelled: no record the services build carries `genres`.
- Emoji and all rendering are not modelled.
- `setViewMode`, `setSelectedItem` and `closeDetailModal` are not modelled: they only set display fields.
- The top-level `favoriteGenres` field of the account store is not modelled: nothing writes it.
- `UserStore.Store.UpdateFavoriteGenres`: signed out, the source builds a partial user object. The model requires a session.
- `UserStore.Store.AddReview`, `UserStore.Store.AddToWatchlist`, `UserStore.Store.AddToWatched`, `UserStore.Store.AddComment`: without a session the source throws on reading `user.id` (for `addComment`, only once some review matches). The model requires a session, or for `AddComment` a session or no matching review, which the pages ensure.
- `UserStore.Store.UpdateProfile`: updates carry only the five profile fields. An update carrying other keys (a password, an id) is not modelled. An update that changes the email is not checked for uniqueness, and no lemma claims it is.
- `DiscoverPage.loadMovies` only reloads trending page 1 into local state. Its sort and genre choices never reach a request, so it is not modelled.
- The catalogue store's `catch` branches ('Failed to …') are not modelled: the services never throw.
- The other pages and components are not part of this model: settings, profile, the application shell and layout, recommendation cards, the mood filter component and the older dashboard component.
