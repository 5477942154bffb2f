/**
 * The catalogue store: the recommendation list, its filtered view, the mood
 * and genre selections, the sort key and direction, the pagination cursor and
 * the detail selection. The list services are passed in as `api`, a function
 * from the request the store makes to the page the service hands back (the
 * services absorb every failure into their fallback page, so the store never
 * sees an exception from them).
 */
module RecommendationStore {
  import opened Wrappers
  import opened Seqs
  import opened JsString
  import opened Tmdb

  // ---------------------------------------------------------------------
  // Sort keys and the order they induce
  // ---------------------------------------------------------------------

  /** What an item is compared on; `Missing` is a value JavaScript cannot order (an 'N/A' year, an absent count). */
  datatype SortKey = Missing | Num(x: real) | Text(s: string)

  /** The key `setSorting` reads: titles lowercased, an absent runtime as 0, an unknown key as popularity. */
  function SortKeyOf(item: MovieItem, sortBy: string): SortKey {
    if sortBy == "rating" then Num(item.rating)
    else if sortBy == "year" then (match item.year case NoYear => Missing case Year(y) => Num(y as real))
    else if sortBy == "title" then Text(ToLowerCase(item.title))
    else if sortBy == "votes" then (match item.voteCount case None => Missing case Some(v) => Num(v as real))
    else if sortBy == "runtime" then Num(item.runtime.GetOr(0) as real)
    else (match item.popularity case None => Missing case Some(p) => Num(p))
  }

  /** `a < b` on keys; `Missing` first, numbers before strings (a list never mixes the two). */
  predicate KeyLess(a: SortKey, b: SortKey) {
    match a
    case Missing => !b.Missing?
    case Num(x) => (b.Num? && x < b.x) || b.Text?
    case Text(s) => b.Text? && LexLess(s, b.s)
  }

  lemma KeyLessIrreflexive(a: SortKey)
    ensures !KeyLess(a, a)
  {
    if a.Text? {
      LexLessIrreflexive(a.s);
    }
  }

  lemma KeyLessTransitive(a: SortKey, b: SortKey, c: SortKey)
    requires KeyLess(a, b) && KeyLess(b, c)
    ensures KeyLess(a, c)
  {
    if a.Text? {
      LexLessTransitive(a.s, b.s, c.s);
    }
  }

  lemma KeyLessTotal(a: SortKey, b: SortKey)
    requires a != b
    ensures KeyLess(a, b) || KeyLess(b, a)
  {
    if a.Text? && b.Text? {
      LexLessTotal(a.s, b.s);
    }
  }

  /** `a` belongs strictly before `b`: 'asc' by increasing key, anything else by decreasing key. */
  predicate Precedes(a: MovieItem, b: MovieItem, sortBy: string, sortOrder: string) {
    if sortOrder == "asc" then KeyLess(SortKeyOf(a, sortBy), SortKeyOf(b, sortBy))
    else KeyLess(SortKeyOf(b, sortBy), SortKeyOf(a, sortBy))
  }

  /** `a` may stand before `b`. */
  predicate InOrder(a: MovieItem, b: MovieItem, sortBy: string, sortOrder: string) {
    !Precedes(b, a, sortBy, sortOrder)
  }

  predicate IsSortedBy(s: seq<MovieItem>, sortBy: string, sortOrder: string) {
    forall i, j | 0 <= i < j < |s| :: InOrder(s[i], s[j], sortBy, sortOrder)
  }

  lemma PrecedesTransitive(a: MovieItem, b: MovieItem, c: MovieItem, sortBy: string, sortOrder: string)
    requires Precedes(a, b, sortBy, sortOrder) && Precedes(b, c, sortBy, sortOrder)
    ensures Precedes(a, c, sortBy, sortOrder)
  {
    var ka, kb, kc := SortKeyOf(a, sortBy), SortKeyOf(b, sortBy), SortKeyOf(c, sortBy);
    if sortOrder == "asc" {
      KeyLessTransitive(ka, kb, kc);
    } else {
      KeyLessTransitive(kc, kb, ka);
    }
  }

  lemma PrecedesIrreflexive(a: MovieItem, sortBy: string, sortOrder: string)
    ensures !Precedes(a, a, sortBy, sortOrder)
  {
    KeyLessIrreflexive(SortKeyOf(a, sortBy));
  }

  /** Neither of two items precedes the other exactly when their keys are equal. */
  lemma UnorderedIffSameKey(a: MovieItem, b: MovieItem, sortBy: string, sortOrder: string)
    ensures !Precedes(a, b, sortBy, sortOrder) && !Precedes(b, a, sortBy, sortOrder)
      <==> SortKeyOf(a, sortBy) == SortKeyOf(b, sortBy)
  {
    KeyLessIrreflexive(SortKeyOf(a, sortBy));
    if SortKeyOf(a, sortBy) != SortKeyOf(b, sortBy) {
      KeyLessTotal(SortKeyOf(a, sortBy), SortKeyOf(b, sortBy));
    }
  }

  /** Inserting `x` after the items that may precede it and before the first that may not keeps a sorted list sorted. */
  lemma InsertKeepsSorted(s: seq<MovieItem>, p: int, x: MovieItem, sortBy: string, sortOrder: string)
    requires IsSortedBy(s, sortBy, sortOrder)
    requires 0 <= p <= |s|
    requires forall k | 0 <= k < p :: InOrder(s[k], x, sortBy, sortOrder)
    requires p < |s| ==> !InOrder(s[p], x, sortBy, sortOrder)
    ensures IsSortedBy(s[..p] + [x] + s[p..], sortBy, sortOrder)
  {
    var t := s[..p] + [x] + s[p..];
    forall k | p <= k < |s| ensures InOrder(x, s[k], sortBy, sortOrder) {
      // x precedes s[p], and s[k] does not precede s[p]
      if Precedes(s[k], x, sortBy, sortOrder) {
        PrecedesTransitive(s[k], x, s[p], sortBy, sortOrder);
        PrecedesIrreflexive(s[p], sortBy, sortOrder);
      }
    }
    forall i, j | 0 <= i < j < |t| ensures InOrder(t[i], t[j], sortBy, sortOrder) {
      if j < p {
        assert t[i] == s[i] && t[j] == s[j];
      } else if j == p {
        assert t[i] == s[i] && t[j] == x;
      } else if i < p {
        assert t[i] == s[i] && t[j] == s[j - 1];
      } else if i == p {
        assert t[i] == x && t[j] == s[j - 1];
      } else {
        assert t[i] == s[i - 1] && t[j] == s[j - 1];
      }
    }
  }

  /**
   * `[...recommendations].sort(compare)`: a sorted permutation of `movies`.
   * The source comparator never answers "equal", so where keys tie the source
   * fixes no order; neither does this contract.
   */
  method SortMovies(movies: seq<MovieItem>, sortBy: string, sortOrder: string) returns (sorted: seq<MovieItem>)
    ensures IsSortedBy(sorted, sortBy, sortOrder)
    ensures multiset(sorted) == multiset(movies)
  {
    sorted := [];
    for n := 0 to |movies|
      invariant IsSortedBy(sorted, sortBy, sortOrder)
      invariant multiset(sorted) == multiset(movies[..n])
    {
      var x := movies[n];
      var p := 0;
      while p < |sorted| && InOrder(sorted[p], x, sortBy, sortOrder)
        invariant 0 <= p <= |sorted|
        invariant forall k | 0 <= k < p :: InOrder(sorted[k], x, sortBy, sortOrder)
      {
        p := p + 1;
      }
      InsertKeepsSorted(sorted, p, x, sortBy, sortOrder);
      assert sorted == sorted[..p] + sorted[p..];
      sorted := sorted[..p] + [x] + sorted[p..];
      assert movies[..n + 1] == movies[..n] + [x];
    }
    assert movies[..|movies|] == movies;
  }

  /** No two items of the list share an element or a key. */
  predicate DistinctKeys(s: seq<MovieItem>, sortBy: string) {
    var m := multiset(s);
    && (forall x | x in m :: m[x] == 1)
    && (forall x, y | x in m && y in m && x != y :: SortKeyOf(x, sortBy) != SortKeyOf(y, sortBy))
  }

  lemma DistinctKeysAt(s: seq<MovieItem>, sortBy: string, i: int, j: int)
    requires DistinctKeys(s, sortBy)
    requires 0 <= i < j < |s|
    ensures SortKeyOf(s[i], sortBy) != SortKeyOf(s[j], sortBy)
  {
    if s[i] == s[j] {
      RepeatedElementCount(s, i, j);
      assert false;
    } else {
      assert s[i] in multiset(s) && s[j] in multiset(s);
    }
  }

  /** With pairwise distinct keys each direction orders the keys strictly: increasing for 'asc', decreasing otherwise. */
  lemma SortedDistinctIsStrict(s: seq<MovieItem>, sortBy: string, sortOrder: string, i: int, j: int)
    requires IsSortedBy(s, sortBy, sortOrder) && DistinctKeys(s, sortBy)
    requires 0 <= i < j < |s|
    ensures sortOrder == "asc" ==> KeyLess(SortKeyOf(s[i], sortBy), SortKeyOf(s[j], sortBy))
    ensures sortOrder != "asc" ==> KeyLess(SortKeyOf(s[j], sortBy), SortKeyOf(s[i], sortBy))
  {
    DistinctKeysAt(s, sortBy, i, j);
    UnorderedIffSameKey(s[i], s[j], sortBy, sortOrder);
  }

  /** Two sorted arrangements of the same items with distinct keys start with the same item. */
  lemma SortedPermutationHeads(a: seq<MovieItem>, b: seq<MovieItem>, sortBy: string, sortOrder: string)
    requires multiset(a) == multiset(b) && a != []
    requires IsSortedBy(a, sortBy, sortOrder) && IsSortedBy(b, sortBy, sortOrder)
    requires DistinctKeys(a, sortBy)
    ensures b != [] && a[0] == b[0]
  {
    assert a[0] in multiset(b);
    assert b != [];
    assert b[0] in multiset(a);
    var k :| 0 <= k < |b| && b[k] == a[0];
    var m :| 0 <= m < |a| && a[m] == b[0];
    if m != 0 {
      DistinctKeysAt(a, sortBy, 0, m);
      UnorderedIffSameKey(a[0], a[m], sortBy, sortOrder);
    }
  }

  /** Dropping the first item keeps keys distinct. */
  lemma DistinctKeysTail(a: seq<MovieItem>, sortBy: string)
    requires DistinctKeys(a, sortBy) && a != []
    ensures DistinctKeys(a[1..], sortBy)
  {
    var ma, mt := multiset(a), multiset(a[1..]);
    assert a == [a[0]] + a[1..];
    assert ma == multiset{a[0]} + mt;
    forall x | x in mt ensures mt[x] == 1 {
      assert ma[x] == 1;
    }
  }

  /** With pairwise distinct keys a list has exactly one sorted arrangement, so sorting again changes nothing. */
  lemma {:induction false} SortedPermutationUnique(a: seq<MovieItem>, b: seq<MovieItem>, sortBy: string, sortOrder: string)
    requires multiset(a) == multiset(b)
    requires IsSortedBy(a, sortBy, sortOrder) && IsSortedBy(b, sortBy, sortOrder)
    requires DistinctKeys(a, sortBy)
    ensures a == b
    decreases |a|
  {
    if a == [] {
      assert |multiset(b)| == 0;
    } else {
      SortedPermutationHeads(a, b, sortBy, sortOrder);
      assert a == [a[0]] + a[1..] && b == [b[0]] + b[1..];
      assert multiset(a[1..]) == multiset(b[1..]);
      DistinctKeysTail(a, sortBy);
      SortedPermutationUnique(a[1..], b[1..], sortBy, sortOrder);
    }
  }

  /** Reversing an ascending list gives a descending one. */
  lemma ReverseOfAscendingIsDescending(s: seq<MovieItem>, sortBy: string, sortOrder: string)
    requires IsSortedBy(s, sortBy, "asc")
    requires sortOrder != "asc"
    ensures IsSortedBy(Reverse(s), sortBy, sortOrder)
  {
    var r := Reverse(s);
    forall i, j | 0 <= i < j < |r| ensures InOrder(r[i], r[j], sortBy, sortOrder) {
      assert InOrder(s[|s| - 1 - j], s[|s| - 1 - i], sortBy, "asc");
    }
  }

  /** With pairwise distinct keys, sorting 'asc' and then in the other direction yields exactly the reverse order. */
  lemma AscendingThenDescendingReverses(s: seq<MovieItem>, asc: seq<MovieItem>, desc: seq<MovieItem>, sortBy: string, sortOrder: string)
    requires DistinctKeys(s, sortBy) && sortOrder != "asc"
    requires multiset(asc) == multiset(s) && IsSortedBy(asc, sortBy, "asc")
    requires multiset(desc) == multiset(asc) && IsSortedBy(desc, sortBy, sortOrder)
    ensures desc == Reverse(asc)
  {
    ReverseOfAscendingIsDescending(asc, sortBy, sortOrder);
    ReverseMultiset(asc);
    SortedPermutationUnique(desc, Reverse(asc), sortBy, sortOrder);
  }

  // ---------------------------------------------------------------------
  // Mood and genre filtering
  // ---------------------------------------------------------------------

  /** JavaScript truthiness of the selected mood: set and not the empty string. */
  predicate MoodSelected(mood: Option<Mood>) {
    mood.Some? && mood.value != ""
  }

  /** `item.genre?.some(genreId => genres.includes(genreId.toString()))` */
  predicate MatchesGenres(item: MovieItem, genres: seq<string>) {
    exists i | 0 <= i < |item.genre| :: GenreText(item.genre[i]) in genres
  }

  /** An item survives the filters: a selected genre (when any is selected) and the selected mood (when one is set). */
  predicate Keeps(item: MovieItem, mood: Option<Mood>, genres: seq<string>) {
    (|genres| == 0 || MatchesGenres(item, genres)) && (!MoodSelected(mood) || mood.value in item.mood)
  }

  /** The filtered view `setSelectedMood` and `setSelectedGenres` compute. */
  function FilterView(recs: seq<MovieItem>, mood: Option<Mood>, genres: seq<string>): (r: seq<MovieItem>)
    ensures IsSubsequence(r, recs)
    ensures forall i | 0 <= i < |r| :: Keeps(r[i], mood, genres)
  {
    if recs == [] then []
    else
      var rest := FilterView(recs[1..], mood, genres);
      if Keeps(recs[0], mood, genres) then
        assert ([recs[0]] + rest)[1..] == rest;
        [recs[0]] + rest
      else rest
  }

  /** The view holds every kept item as often as the list does, and nothing else. */
  lemma {:induction false} FilterViewExact(recs: seq<MovieItem>, mood: Option<Mood>, genres: seq<string>)
    ensures forall x :: multiset(FilterView(recs, mood, genres))[x] == if Keeps(x, mood, genres) then multiset(recs)[x] else 0
  {
    if recs != [] {
      FilterViewExact(recs[1..], mood, genres);
      assert recs == [recs[0]] + recs[1..];
    }
  }

  /** Without any selection the view is the whole list. */
  lemma {:induction false} FilterViewWithoutSelection(recs: seq<MovieItem>, mood: Option<Mood>)
    requires !MoodSelected(mood)
    ensures FilterView(recs, mood, []) == recs
  {
    if recs != [] {
      FilterViewWithoutSelection(recs[1..], mood);
      assert recs == [recs[0]] + recs[1..];
    }
  }

  /** Filtering formatted items by a mood the genre table never derives always yields nothing. */
  lemma {:induction false} UnderivedMoodFiltersEverything(recs: seq<MovieItem>, m: Mood, genres: seq<string>)
    requires m in UnderivedMoods
    requires forall i | 0 <= i < |recs| :: HasDerivedMoods(recs[i])
    ensures FilterView(recs, Some(m), genres) == []
  {
    if recs != [] {
      UnderivedMoodsNeverDerived(GenreIdsOf(recs[0].genre), m);
      UnderivedMoodFiltersEverything(recs[1..], m, genres);
    }
  }

  // ---------------------------------------------------------------------
  // By-identifier updates of the list
  // ---------------------------------------------------------------------

  /** `recommendations.map(item => item.id === id ? {...item, userRating: rating} : item)` */
  function WithUserRating(recs: seq<MovieItem>, id: int, rating: int): (r: seq<MovieItem>)
    ensures |r| == |recs|
    ensures forall i | 0 <= i < |recs| ::
      r[i] == if recs[i].id == id then recs[i].(userRating := Some(rating)) else recs[i]
  {
    if recs == [] then []
    else [if recs[0].id == id then recs[0].(userRating := Some(rating)) else recs[0]]
         + WithUserRating(recs[1..], id, rating)
  }

  /**
   * `{...item, ...details}`: every field from the detail record. The list-only
   * popularity and vote count are keys a detail record may leave out (None);
   * the item's own values survive exactly then.
   */
  function MergeRecord(item: MovieItem, details: MovieItem): MovieItem {
    details.(popularity := if details.popularity.Some? then details.popularity else item.popularity,
             voteCount := if details.voteCount.Some? then details.voteCount else item.voteCount)
  }

  /** `recommendations.map(item => item.id === id ? {...item, ...details} : item)` */
  function MergeDetails(recs: seq<MovieItem>, id: int, details: MovieItem): (r: seq<MovieItem>)
    ensures |r| == |recs|
    ensures forall i | 0 <= i < |recs| ::
      r[i] == if recs[i].id == id then MergeRecord(recs[i], details) else recs[i]
  {
    if recs == [] then []
    else [if recs[0].id == id then MergeRecord(recs[0], details) else recs[0]]
         + MergeDetails(recs[1..], id, details)
  }

  /** Rating keeps the derived-mood property of every item, and touches no other field. */
  lemma RatingKeepsItems(recs: seq<MovieItem>, id: int, rating: int)
    ensures forall i | 0 <= i < |recs| :: HasDerivedMoods(recs[i]) ==> HasDerivedMoods(WithUserRating(recs, id, rating)[i])
    ensures forall i | 0 <= i < |recs| :: WithUserRating(recs, id, rating)[i].(userRating := recs[i].userRating) == recs[i]
  {
  }

  /**
   * A merged entry takes the detail record's rating, so merging a fresh detail
   * record clears the viewer's rating; it keeps its own popularity and vote
   * count unless the record carries them.
   */
  lemma MergeTakesDetailRating(recs: seq<MovieItem>, id: int, details: MovieItem, i: int)
    requires 0 <= i < |recs| && recs[i].id == id
    ensures MergeDetails(recs, id, details)[i].userRating == details.userRating
    ensures MergeDetails(recs, id, details)[i].popularity
            == if details.popularity.Some? then details.popularity else recs[i].popularity
    ensures MergeDetails(recs, id, details)[i].voteCount
            == if details.voteCount.Some? then details.voteCount else recs[i].voteCount
  {
  }

  // ---------------------------------------------------------------------
  // The store
  // ---------------------------------------------------------------------

  /** The page requests the store makes. */
  datatype PageRequest = Trending(page: int) | Search(query: string, page: int)

  class Store {
    var recommendations: seq<MovieItem>
    var filteredRecommendations: seq<MovieItem>
    var selectedMood: Option<Mood>
    var selectedGenres: seq<string>
    var selectedItem: Option<MovieItem>
    var isDetailModalOpen: bool
    var isLoading: bool
    var error: Option<string>
    var searchQuery: string
    var currentPage: int
    var totalPages: int
    var hasMore: bool
    var sortBy: string
    var sortOrder: string

    constructor ()
      ensures recommendations == [] && filteredRecommendations == []
      ensures selectedMood == None && selectedGenres == []
      ensures selectedItem == None && !isDetailModalOpen && !isLoading && error == None
      ensures searchQuery == "" && currentPage == 1 && totalPages == 1 && hasMore
      ensures sortBy == "popularity" && sortOrder == "desc"
    {
      recommendations, filteredRecommendations := [], [];
      selectedMood, selectedGenres := None, [];
      selectedItem, isDetailModalOpen, isLoading, error := None, false, false, None;
      searchQuery, currentPage, totalPages, hasMore := "", 1, 1, true;
      sortBy, sortOrder := "popularity", "desc";
    }

    /** `setRecommendations(movies)` */
    method SetRecommendations(movies: seq<MovieItem>)
      modifies this`recommendations, this`filteredRecommendations, this`currentPage, this`hasMore
      ensures recommendations == movies && filteredRecommendations == movies
      ensures currentPage == 1 && !hasMore
    {
      recommendations, filteredRecommendations := movies, movies;
      currentPage, hasMore := 1, false;
    }

    /** `setSorting(sortBy, sortOrder)`: re-orders the list only; the filtered view is left as it was. */
    method SetSorting(key: string, order: string)
      modifies this`recommendations, this`sortBy, this`sortOrder
      ensures IsSortedBy(recommendations, key, order)
      ensures multiset(recommendations) == multiset(old(recommendations))
      ensures sortBy == key && sortOrder == order
    {
      var sorted := SortMovies(recommendations, key, order);
      recommendations, sortBy, sortOrder := sorted, key, order;
    }

    /** `setSelectedGenres(genres)` */
    method SetSelectedGenres(genres: seq<string>)
      modifies this`selectedGenres, this`filteredRecommendations
      ensures selectedGenres == genres
      ensures filteredRecommendations == FilterView(recommendations, selectedMood, genres)
    {
      selectedGenres := genres;
      filteredRecommendations := FilterView(recommendations, selectedMood, genres);
    }

    /** `setSelectedMood(mood)` */
    method SetSelectedMood(mood: Option<Mood>)
      modifies this`selectedMood, this`filteredRecommendations
      ensures selectedMood == mood
      ensures filteredRecommendations == FilterView(recommendations, mood, selectedGenres)
    {
      selectedMood := mood;
      filteredRecommendations := FilterView(recommendations, mood, selectedGenres);
    }

    /** `initializeStore()`: trending page 1, then `setSorting('popularity', 'desc')`. */
    method InitializeStore(api: PageRequest -> MoviePage)
      modifies this`recommendations, this`currentPage, this`totalPages, this`hasMore, this`isLoading,
               this`sortBy, this`sortOrder
      ensures var page := api(Trending(1));
        && multiset(recommendations) == multiset(page.movies)
        && IsSortedBy(recommendations, "popularity", "desc")
        && totalPages == page.totalPages && currentPage == page.currentPage
        && hasMore == (page.currentPage < page.totalPages)
      ensures !isLoading && sortBy == "popularity" && sortOrder == "desc"
    {
      isLoading, recommendations, currentPage := true, [], 1;
      var page := api(Trending(1));
      recommendations, totalPages, currentPage := page.movies, page.totalPages, page.currentPage;
      hasMore, isLoading := currentPage < totalPages, false;
      SetSorting("popularity", "desc");
    }

    /** `searchMovies(query)`: the first page of search results replaces the list. */
    method SearchMovies(query: string, api: PageRequest -> MoviePage)
      modifies this`recommendations, this`searchQuery, this`currentPage, this`totalPages, this`hasMore, this`isLoading
      ensures var page := api(Search(query, 1));
        && recommendations == page.movies
        && totalPages == page.totalPages && currentPage == page.currentPage
        && hasMore == (page.currentPage < page.totalPages)
      ensures searchQuery == query && !isLoading
    {
      isLoading, searchQuery, recommendations, currentPage := true, query, [], 1;
      var page := api(Search(query, 1));
      recommendations, totalPages, currentPage := page.movies, page.totalPages, page.currentPage;
      hasMore, isLoading := currentPage < totalPages, false;
    }

    /** The request `loadMore` makes: the active search when there is one, else trending. */
    function NextPageRequest(): PageRequest
      reads this
    {
      if searchQuery != "" then Search(searchQuery, currentPage + 1) else Trending(currentPage + 1)
    }

    /**
     * `loadMore()`: nothing while a load is in flight or on the last page;
     * otherwise the next page is appended and the cursor advances.
     */
    method LoadMore(api: PageRequest -> MoviePage)
      modifies this`recommendations, this`currentPage, this`totalPages, this`hasMore, this`isLoading
      ensures old(isLoading) || old(currentPage) >= old(totalPages) ==>
        recommendations == old(recommendations) && currentPage == old(currentPage)
        && totalPages == old(totalPages) && hasMore == old(hasMore) && isLoading == old(isLoading)
      ensures !(old(isLoading) || old(currentPage) >= old(totalPages)) ==>
        var page := api(old(NextPageRequest()));
        && recommendations == old(recommendations) + page.movies
        && currentPage == old(currentPage) + 1 && totalPages == page.totalPages
        && hasMore == (currentPage < page.totalPages) && !isLoading
    {
      if isLoading || currentPage >= totalPages {
        return;
      }
      isLoading := true;
      var nextPage := currentPage + 1;
      var page := api(if searchQuery != "" then Search(searchQuery, nextPage) else Trending(nextPage));
      recommendations := recommendations + page.movies;
      currentPage, totalPages := nextPage, page.totalPages;
      hasMore, isLoading := nextPage < page.totalPages, false;
    }

    /** `loadMovieDetails(movieId)` once the detail service has answered (None is its `null`). */
    method LoadMovieDetails(movieId: int, details: Option<MovieItem>)
      modifies this`recommendations, this`selectedItem, this`isDetailModalOpen
      ensures details.None? ==>
        recommendations == old(recommendations) && selectedItem == old(selectedItem)
        && isDetailModalOpen == old(isDetailModalOpen)
      ensures details.Some? ==>
        recommendations == MergeDetails(old(recommendations), movieId, details.value)
        && selectedItem == details && isDetailModalOpen
    {
      if details.Some? {
        recommendations := MergeDetails(recommendations, movieId, details.value);
        selectedItem, isDetailModalOpen := details, true;
      }
    }

    /** `getRecommendations()` */
    function GetRecommendations(): seq<MovieItem>
      reads this
    {
      if MoodSelected(selectedMood) || |selectedGenres| > 0 then filteredRecommendations else recommendations
    }

    /** While the view is in step with the list, the list on screen is the list filtered by the current selection. */
    lemma ShownIsFiltered()
      requires filteredRecommendations == FilterView(recommendations, selectedMood, selectedGenres)
      ensures GetRecommendations() == FilterView(recommendations, selectedMood, selectedGenres)
    {
      if !(MoodSelected(selectedMood) || |selectedGenres| > 0) {
        FilterViewWithoutSelection(recommendations, selectedMood);
      }
    }

    /** `setUserRating(itemId, rating)` */
    method SetUserRating(itemId: int, rating: int)
      modifies this`recommendations
      ensures recommendations == WithUserRating(old(recommendations), itemId, rating)
    {
      recommendations := WithUserRating(recommendations, itemId, rating);
    }
  }

  /**
   * Trending page 1 of three pages, then two `loadMore` calls: the list holds
   * the three pages' items and there is nothing more to load.
   */
  method ThreePageScenario(p1: seq<MovieItem>, p2: seq<MovieItem>, p3: seq<MovieItem>) returns (list: seq<MovieItem>, more: bool)
    ensures multiset(list) == multiset(p1 + p2 + p3)
    ensures |list| == |p1| + |p2| + |p3| && list[|p1|..] == p2 + p3
    ensures IsSortedBy(list[..|p1|], "popularity", "desc") && !more
  {
    var store := new Store();
    var api := (r: PageRequest) =>
      if r == Trending(1) then MoviePage(p1, 3, 1)
      else if r == Trending(2) then MoviePage(p2, 3, 2)
      else MoviePage(p3, 3, 3);
    store.InitializeStore(api);
    assert |store.recommendations| == |multiset(store.recommendations)| == |p1|;
    var first := store.recommendations;
    store.LoadMore(api);
    store.LoadMore(api);
    list, more := store.recommendations, store.hasMore;
    assert list == first + p2 + p3;
    assert list[..|p1|] == first;
    assert list[|p1|..] == p2 + p3;
    assert p1 + p2 + p3 == p1 + (p2 + p3);
  }
}
