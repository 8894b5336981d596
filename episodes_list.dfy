/**
 * The episodes list screen: page-by-page loading up to page 3 and the
 * name / air-date search filter.
 */
module EpisodesList {
  import opened Options
  import opened Records
  import opened Text
  import Seqs
  import Paging

  /** The last page of episodes the remote API serves. */
  const LastPage := 3
  const FetchError := "Error fetching episodes. Please try again later."

  /** The lowered query occurs in the lowered name or air date. */
  predicate Matches(e: Episode, query: string) {
    var q := Lower(query);
    Includes(Lower(e.name), q) || Includes(Lower(e.airDate), q)
  }

  /** `filteredEpisodes`. */
  function Filtered(episodes: seq<Episode>, query: string): seq<Episode> {
    Seqs.Filter(episodes, (e: Episode) => Matches(e, query))
  }

  /**
   * The filtered list is an order-preserving subsequence of the episodes; an
   * episode is in it exactly when it matches, and then as often as in the input.
   */
  lemma FilteredSpec(episodes: seq<Episode>, query: string)
    ensures Seqs.IsSubsequence(Filtered(episodes, query), episodes)
    ensures forall i :: 0 <= i < |episodes| ==>
      (episodes[i] in Filtered(episodes, query) <==> Matches(episodes[i], query))
    ensures forall i :: 0 <= i < |Filtered(episodes, query)| ==>
      Matches(Filtered(episodes, query)[i], query)
    ensures forall e: Episode ::
      multiset(Filtered(episodes, query))[e] == (if Matches(e, query) then multiset(episodes)[e] else 0)
  {
    var keep := (e: Episode) => Matches(e, query);
    Seqs.FilterIsSubsequence(episodes, keep);
    forall e: Episode ensures multiset(Filtered(episodes, query))[e] ==
      if Matches(e, query) then multiset(episodes)[e] else 0
    {
      Seqs.FilterCount(episodes, keep, e);
    }
  }

  /** An empty search box shows every episode. */
  lemma EmptyQueryKeepsAll(episodes: seq<Episode>)
    ensures Filtered(episodes, "") == episodes
  {
    var keep := (e: Episode) => Matches(e, "");
    forall i | 0 <= i < |episodes| ensures keep(episodes[i]) {
      IncludesEmpty(Lower(episodes[i].name));
    }
    Seqs.FilterKeepsAll(episodes, keep);
  }

  /** A page that arrives extends the filtered list by the page's own matches. */
  lemma FilteredAppend(episodes: seq<Episode>, page: seq<Episode>, query: string)
    ensures Filtered(episodes + page, query) == Filtered(episodes, query) + Filtered(page, query)
  {
    Seqs.FilterAppend(episodes, page, (e: Episode) => Matches(e, query));
  }

  class Screen {
    var episodes: seq<Episode>
    var loading: bool
    var error: string
    var page: int
    var searchQuery: string

    /** The cursor stays within the pages the API serves. */
    ghost predicate Valid()
      reads this
    {
      1 <= page <= LastPage
    }

    constructor ()
      ensures Valid() && page == 1
      ensures episodes == [] && !loading && error == "" && searchQuery == ""
    {
      episodes, loading, error := [], false, "";
      page, searchQuery := 1, "";
    }

    /** The fetch effect begins: `setLoading(true)`. */
    method StartFetch()
      requires Valid()
      modifies this`loading
      ensures Valid()
      ensures loading
    {
      loading := true;
    }

    /**
     * The fetch effect ends: a page that arrived is appended after the
     * episodes already loaded; a failure sets the error and leaves the
     * episodes as they were. Loading ends false.
     */
    method FinishFetch(response: Option<seq<Episode>>)
      requires Valid()
      modifies this`episodes, this`loading, this`error
      ensures Valid()
      ensures !loading
      ensures episodes == Paging.Receive(old(episodes), response)
      ensures response.Some? ==> episodes == old(episodes) + response.value && error == old(error)
      ensures response.None? ==> episodes == old(episodes) && error == FetchError
    {
      if response.Some? {
        episodes := episodes + response.value;
      } else {
        error := FetchError;
      }
      loading := false;
    }

    /** `handleLoadMore`: one page further only when idle and below page 3. */
    method LoadMore()
      requires Valid()
      modifies this`page
      ensures Valid()
      ensures page == Paging.NextPage(old(page), loading, LastPage)
      ensures old(page) <= page <= old(page) + 1
      ensures loading ==> page == old(page)
    {
      if !loading && page < LastPage {
        page := page + 1;
      }
    }

    /** The search box's `onChangeText`. */
    method SetSearchQuery(query: string)
      requires Valid()
      modifies this`searchQuery
      ensures Valid()
      ensures searchQuery == query
    {
      searchQuery := query;
    }
  }
}
