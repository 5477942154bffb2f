/**
 * The dashboard's rules: the mood buttons it offers, which mood a click
 * selects, the sort direction a sort button asks for, when a search is
 * issued, and what the mood effect loads into the catalogue store.
 */
module DashboardPage {
  import opened Wrappers
  import opened JsString
  import opened Tmdb
  import opened RecommendationStore

  /** A mood button: its caption and the mood it selects (the emoji is left out). */
  datatype MoodButton = MoodButton(caption: string, value: Mood)

  /** `moodFilters`, in display order. */
  const MoodFilters: seq<MoodButton> := [
    MoodButton("Happy", "happy"),
    MoodButton("Sad", "sad"),
    MoodButton("Excited", "excited"),
    MoodButton("Relaxed", "relaxed"),
    MoodButton("Thought-provoking", "thought-provoking"),
    MoodButton("Romantic", "romantic"),
    MoodButton("Intense", "intense"),
    MoodButton("Mysterious", "mysterious"),
    MoodButton("Magical", "magical"),
    MoodButton("Dramatic", "dramatic"),
    MoodButton("Funny", "funny"),
    MoodButton("Adventurous", "adventurous"),
    MoodButton("Mind-bending", "mind-bending"),
    MoodButton("Action-packed", "action-packed"),
    MoodButton("Spooky", "spooky")
  ]

  /** Every mood on offer has a non-empty genre list to browse, so a mood click always reaches the provider. */
  lemma OfferedMoodsHaveGenres(i: int)
    requires 0 <= i < |MoodFilters|
    ensures MoodFilters[i].value in MoodToGenreMap && |MoodToGenreMap[MoodFilters[i].value]| > 0
    ensures MoodRequest(MoodFilters[i].value, 1).Some?
  {
  }

  /** The four moods the genre table never derives are all on offer. */
  lemma UnderivedMoodsAreOffered(m: Mood)
    requires m in UnderivedMoods
    ensures exists i | 0 <= i < |MoodFilters| :: MoodFilters[i].value == m
  {
    if m == "sad" {
      assert MoodFilters[1].value == m;
    } else if m == "dramatic" {
      assert MoodFilters[9].value == m;
    } else if m == "action-packed" {
      assert MoodFilters[13].value == m;
    } else {
      assert MoodFilters[14].value == m;
    }
  }

  // ---------------------------------------------------------------------
  // Sorting
  // ---------------------------------------------------------------------

  /** The direction `handleSort(value)` asks for: the same key flips the direction, a new key starts descending. */
  function NextSortOrder(value: string, sortBy: string, sortOrder: string): (order: string)
    ensures order == "asc" || order == "desc"
    ensures value != sortBy ==> order == "desc"
    ensures value == sortBy ==> (order == "asc" <==> sortOrder == "desc")
  {
    if value == sortBy then (if sortOrder == "desc" then "asc" else "desc") else "desc"
  }

  /** Two clicks on the active sort key give back the direction it had. */
  lemma SortClickTwiceRestores(key: string, order: string)
    requires order == "asc" || order == "desc"
    ensures NextSortOrder(key, key, NextSortOrder(key, key, order)) == order
  {
  }

  /**
   * `handleSort(value)`. The sort re-orders the full list only, so while a mood
   * is selected the list on screen (the filtered view) does not change.
   */
  method HandleSort(catalog: Store, value: string)
    modifies catalog`recommendations, catalog`sortBy, catalog`sortOrder
    ensures catalog.sortBy == value && catalog.sortOrder == NextSortOrder(value, old(catalog.sortBy), old(catalog.sortOrder))
    ensures IsSortedBy(catalog.recommendations, value, catalog.sortOrder)
    ensures multiset(catalog.recommendations) == multiset(old(catalog.recommendations))
    ensures MoodSelected(catalog.selectedMood) ==> catalog.GetRecommendations() == old(catalog.GetRecommendations())
  {
    catalog.SetSorting(value, NextSortOrder(value, catalog.sortBy, catalog.sortOrder));
  }

  // ---------------------------------------------------------------------
  // Mood buttons
  // ---------------------------------------------------------------------

  /** The mood a click on a mood button selects: the active one clears, any other is chosen. */
  function MoodAfterClick(selected: Option<Mood>, clicked: Mood): (r: Option<Mood>)
    ensures r.None? <==> selected == Some(clicked)
    ensures r.Some? ==> r.value == clicked
  {
    if selected == Some(clicked) then None else Some(clicked)
  }

  /** Clicking a mood that is not active twice leaves no mood selected. */
  lemma MoodClickTwiceClears(selected: Option<Mood>, clicked: Mood)
    requires selected != Some(clicked)
    ensures MoodAfterClick(selected, clicked) == Some(clicked)
    ensures MoodAfterClick(MoodAfterClick(selected, clicked), clicked) == None
  {
  }

  /** A mood button click. */
  method HandleMoodClick(catalog: Store, clicked: Mood)
    modifies catalog`selectedMood, catalog`filteredRecommendations
    ensures catalog.selectedMood == MoodAfterClick(old(catalog.selectedMood), clicked)
    ensures catalog.filteredRecommendations == FilterView(catalog.recommendations, catalog.selectedMood, catalog.selectedGenres)
  {
    catalog.SetSelectedMood(MoodAfterClick(catalog.selectedMood, clicked));
  }

  /** The 'All' button: no mood, whatever was selected. */
  method HandleAllClick(catalog: Store)
    modifies catalog`selectedMood, catalog`filteredRecommendations
    ensures catalog.selectedMood == None
    ensures catalog.filteredRecommendations == FilterView(catalog.recommendations, None, catalog.selectedGenres)
  {
    catalog.SetSelectedMood(None);
  }

  // ---------------------------------------------------------------------
  // Search
  // ---------------------------------------------------------------------

  /** `searchTerm.trim()` is truthy. */
  predicate ShouldSearch(term: string) {
    !IsBlank(term)
  }

  /** A search is issued exactly when the term holds a character that is not whitespace. */
  lemma ShouldSearchIffVisibleCharacter(term: string)
    ensures ShouldSearch(term) <==> exists i | 0 <= i < |term| :: !IsWhitespace(term[i])
  {
    BlankIffAllWhitespace(term);
  }

  /** `handleSearch(e)`: the untrimmed term goes to the store. */
  method HandleSearch(catalog: Store, term: string, api: PageRequest -> MoviePage)
    modifies catalog`recommendations, catalog`searchQuery, catalog`currentPage, catalog`totalPages,
             catalog`hasMore, catalog`isLoading
    ensures !ShouldSearch(term) ==> unchanged(catalog)
    ensures ShouldSearch(term) ==>
      var page := api(Search(term, 1));
      && catalog.searchQuery == term && catalog.recommendations == page.movies
      && catalog.totalPages == page.totalPages && catalog.currentPage == page.currentPage
      && catalog.hasMore == (page.currentPage < page.totalPages) && !catalog.isLoading
  {
    if ShouldSearch(term) {
      catalog.SearchMovies(term, api);
    }
  }

  // ---------------------------------------------------------------------
  // The mood effect
  // ---------------------------------------------------------------------

  /**
   * The effect that runs when the selected mood changes: with a mood, page 1
   * of that mood's movies replaces both lists (an empty answer leaves them
   * empty); without one the store is initialised again.
   */
  method LoadMoodBasedMovies(catalog: Store, server: DiscoverRequest -> Fetched<RawPage>, imageBase: string,
                             api: PageRequest -> MoviePage)
    modifies catalog`recommendations, catalog`filteredRecommendations, catalog`currentPage, catalog`totalPages,
             catalog`hasMore, catalog`isLoading, catalog`sortBy, catalog`sortOrder
    ensures MoodSelected(catalog.selectedMood) ==>
      var page := GetMoviesByMood(catalog.selectedMood.value, 1, server, imageBase);
      && catalog.recommendations == page.movies && catalog.filteredRecommendations == page.movies
      && catalog.currentPage == 1 && !catalog.hasMore
      && catalog.totalPages == old(catalog.totalPages) && catalog.isLoading == old(catalog.isLoading)
      && catalog.sortBy == old(catalog.sortBy) && catalog.sortOrder == old(catalog.sortOrder)
    ensures !MoodSelected(catalog.selectedMood) ==>
      var page := api(Trending(1));
      && multiset(catalog.recommendations) == multiset(page.movies)
      && IsSortedBy(catalog.recommendations, "popularity", "desc")
      && catalog.totalPages == page.totalPages && catalog.currentPage == page.currentPage
      && catalog.hasMore == (page.currentPage < page.totalPages) && !catalog.isLoading
      && catalog.sortBy == "popularity" && catalog.sortOrder == "desc"
      && catalog.filteredRecommendations == old(catalog.filteredRecommendations)
  {
    if MoodSelected(catalog.selectedMood) {
      var page := GetMoviesByMood(catalog.selectedMood.value, 1, server, imageBase);
      if |page.movies| > 0 {
        catalog.SetRecommendations(page.movies);
      } else {
        catalog.SetRecommendations([]);
      }
    } else {
      catalog.InitializeStore(api);
    }
  }

  /**
   * The movies loaded for one of the four underived moods never carry that
   * mood: they are shown because loading replaces the filtered view, and any
   * later re-filter on the same mood empties the view.
   */
  lemma UnderivedMoodLoadsUntaggedMovies(m: Mood, server: DiscoverRequest -> Fetched<RawPage>, imageBase: string, genres: seq<string>)
    requires m in UnderivedMoods
    ensures forall i | 0 <= i < |GetMoviesByMood(m, 1, server, imageBase).movies| ::
      m !in GetMoviesByMood(m, 1, server, imageBase).movies[i].mood
    ensures FilterView(GetMoviesByMood(m, 1, server, imageBase).movies, Some(m), genres) == []
  {
    var movies := GetMoviesByMood(m, 1, server, imageBase).movies;
    forall i | 0 <= i < |movies| ensures m !in movies[i].mood {
      UnderivedMoodsNeverDerived(GenreIdsOf(movies[i].genre), m);
    }
    UnderivedMoodFiltersEverything(movies, m, genres);
  }
}
