/**
 * The movie detail dialog's handlers: the watchlist and watched toggles and
 * the star rating, each routing one click to the account store (and, for a
 * rating, the catalogue store). The buttons and stars are shown only to a
 * signed-in viewer, so each handler requires a session.
 */
module DetailModal {
  import opened Wrappers
  import opened Seqs
  import opened Tmdb
  import UserStore
  import RecommendationStore

  /** The values the star row hands to its callback. */
  const Stars: seq<int> := [1, 2, 3, 4, 5]

  /** `handleWatchlistClick()`: remove a listed item, add an unlisted one. */
  method HandleWatchlistClick(account: UserStore.Store, item: MovieItem, now: string)
    requires account.Valid() && account.isAuthenticated
    modifies account`watchlist
    ensures account.IsInWatchlist(item.id) == !old(account.IsInWatchlist(item.id))
    ensures old(account.IsInWatchlist(item.id)) ==>
      account.watchlist == FilterOut(old(account.watchlist), UserStore.ListedIdOf, item.id)
    ensures !old(account.IsInWatchlist(item.id)) ==>
      account.watchlist == old(account.watchlist) + [UserStore.WatchlistEntry(item, now, account.user.value.id)]
  {
    if account.IsInWatchlist(item.id) {
      account.RemoveFromWatchlist(item.id);
    } else {
      account.AddToWatchlist(item, now);
    }
  }

  /** `handleWatchedClick()`: un-watch a watched item, or record it with the item's own rating. */
  method HandleWatchedClick(account: UserStore.Store, item: MovieItem, now: string)
    requires account.Valid() && account.isAuthenticated
    modifies account`watchedMovies, account`watchlist
    ensures account.IsWatched(item.id) == !old(account.IsWatched(item.id))
    ensures old(account.IsWatched(item.id)) ==>
      account.watchedMovies == FilterOut(old(account.watchedMovies), UserStore.WatchedIdOf, item.id)
      && account.watchlist == old(account.watchlist)
    ensures !old(account.IsWatched(item.id)) ==>
      account.watchedMovies == old(account.watchedMovies) + [UserStore.WatchedEntry(item, now, "", account.user.value.id)]
      && account.watchlist == FilterOut(old(account.watchlist), UserStore.ListedIdOf, item.id)
      && !account.IsInWatchlist(item.id)
  {
    if account.IsWatched(item.id) {
      account.RemoveFromWatched(item.id);
    } else {
      account.AddToWatched(item, item.userRating, now);
      assert item.(userRating := item.userRating) == item;
    }
  }

  /**
   * The star callback: the catalogue records the rating for the item, and an
   * item not yet watched is recorded as watched with that rating (which takes
   * it off the watchlist). An item already watched keeps its watched entry
   * and the rating stored there.
   */
  method HandleRate(account: UserStore.Store, catalog: RecommendationStore.Store, item: MovieItem, star: int, now: string)
    requires account.Valid() && account.isAuthenticated
    requires star in Stars
    modifies account`watchedMovies, account`watchlist, catalog`recommendations
    ensures catalog.recommendations == RecommendationStore.WithUserRating(old(catalog.recommendations), item.id, star)
    ensures account.IsWatched(item.id)
    ensures old(account.IsWatched(item.id)) ==>
      account.watchedMovies == old(account.watchedMovies) && account.watchlist == old(account.watchlist)
    ensures !old(account.IsWatched(item.id)) ==>
      account.watchedMovies == old(account.watchedMovies) + [UserStore.WatchedEntry(item.(userRating := Some(star)), now, "", account.user.value.id)]
      && account.watchlist == FilterOut(old(account.watchlist), UserStore.ListedIdOf, item.id)
      && !account.IsInWatchlist(item.id)
  {
    var watched := account.IsWatched(item.id);
    catalog.SetUserRating(item.id, star);
    if !watched {
      account.AddToWatched(item, Some(star), now);
    }
  }
}
