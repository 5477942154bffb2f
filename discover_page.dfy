/**
 * The discover page's rules: the genre chips toggle ids in and out of the
 * selection, and a search replaces the page's movies unless the query is
 * blank.
 */
module DiscoverPage {
  import opened Seqs
  import opened JsString
  import opened Tmdb

  /** The key the selection is filtered on: the genre id itself. */
  function GenreKey(id: int): int { id }

  /** `toggleGenre(genreId)`: drop every occurrence of a selected id, or add an unselected one at the end. */
  function ToggleGenre(prev: seq<int>, g: int): seq<int> {
    if g in prev then FilterOut(prev, GenreKey, g) else prev + [g]
  }

  /** After a toggle, `g` is selected exactly when it was not, and every other id is as selected as before. */
  lemma ToggleFlipsMembership(prev: seq<int>, g: int, x: int)
    ensures g in ToggleGenre(prev, g) <==> g !in prev
    ensures x != g ==> (x in ToggleGenre(prev, g) <==> x in prev)
  {
    if g in prev {
      FilterOutExact(prev, GenreKey, g);
      assert multiset(FilterOut(prev, GenreKey, g))[x] == if x == g then 0 else multiset(prev)[x];
    }
  }

  /** Removing keeps the other ids in their order and as often as they occur; adding puts `g` last. */
  lemma ToggleKeepsOthersInOrder(prev: seq<int>, g: int)
    ensures g in prev ==> (IsSubsequence(ToggleGenre(prev, g), prev)
      && forall x | x != g :: multiset(ToggleGenre(prev, g))[x] == multiset(prev)[x])
    ensures g !in prev ==> ToggleGenre(prev, g)[..|prev|] == prev && ToggleGenre(prev, g)[|prev|] == g
  {
    if g in prev {
      FilterOutExact(prev, GenreKey, g);
    }
  }

  /** Toggling an unselected id twice gives back the original selection. */
  lemma ToggleTwiceRestores(prev: seq<int>, g: int)
    requires g !in prev
    ensures ToggleGenre(ToggleGenre(prev, g), g) == prev
  {
    assert g in prev + [g];
    FilterOutAppend(prev, [g], GenreKey, g);
    assert !HasKey(prev, GenreKey, g) by {
      forall i | 0 <= i < |prev| ensures GenreKey(prev[i]) != g {
        assert prev[i] in prev;
      }
    }
    FilterOutAbsent(prev, GenreKey, g);
    assert FilterOut([g], GenreKey, g) == [];
  }

  /** A toggle never introduces a duplicate. */
  lemma ToggleKeepsNoDuplicates(prev: seq<int>, g: int)
    requires NoDuplicates(prev)
    ensures NoDuplicates(ToggleGenre(prev, g))
  {
    if g in prev {
      SubsequenceNoDuplicates(FilterOut(prev, GenreKey, g), prev);
    }
  }

  /** The selection after a run of chip clicks, starting from the empty selection. */
  function SelectionAfter(clicks: seq<int>): seq<int> {
    if clicks == [] then [] else ToggleGenre(SelectionAfter(clicks[..|clicks| - 1]), clicks[|clicks| - 1])
  }

  /** Whatever the clicks, the selection holds each id at most once. */
  lemma {:induction false} SelectionHasNoDuplicates(clicks: seq<int>)
    ensures NoDuplicates(SelectionAfter(clicks))
  {
    if clicks != [] {
      SelectionHasNoDuplicates(clicks[..|clicks| - 1]);
      ToggleKeepsNoDuplicates(SelectionAfter(clicks[..|clicks| - 1]), clicks[|clicks| - 1]);
    }
  }

  /** `handleSearch(e)` once the search service has answered: a blank query keeps the movies on the page. */
  function HandleSearch(movies: seq<MovieItem>, query: string, answer: MoviePage): seq<MovieItem> {
    if IsBlank(query) then movies else answer.movies
  }

  /** A query made only of whitespace changes nothing; any other query shows the service's answer. */
  lemma WhitespaceQueryIsNoOp(movies: seq<MovieItem>, query: string, answer: MoviePage)
    ensures (forall i | 0 <= i < |query| :: IsWhitespace(query[i])) ==> HandleSearch(movies, query, answer) == movies
    ensures (exists i | 0 <= i < |query| :: !IsWhitespace(query[i])) ==> HandleSearch(movies, query, answer) == answer.movies
  {
    BlankIffAllWhitespace(query);
  }
}
