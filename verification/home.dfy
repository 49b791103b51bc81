/** The request list of the home page (client/src/pages/Home.tsx), whose
    category filter and selection toggle the map page repeats: filter by the
    selected category, sort newest first, keep the three most recent. */
module Browse {
  import opened Results
  import opened Seqs
  import opened Schema
  import opened Utils
  import opened Recency

  /** The selector of requests filed under category `c`. */
  function InCategory(c: CategoryType): Request -> bool {
    (q: Request) => q.category == CategoryName(c)
  }

  /** `filteredRequests`: everything when no category is selected, else the
      requests of the selected category in their original order. */
  function FilteredRequests(requests: seq<Request>, selected: Option<CategoryType>): (r: seq<Request>)
    ensures selected.None? ==> r == requests
    ensures selected.Some? ==>
      forall q :: q in r <==> q in requests && q.category == CategoryName(selected.value)
    ensures forall q :: multiset(r)[q] <= multiset(requests)[q]
  {
    match selected
    case None => requests
    case Some(c) => Filter(requests, InCategory(c))
  }

  /** Filtering keeps order: the filter of a concatenation is the
      concatenation of the filters. */
  lemma {:induction false} FilteredKeepsOrder(a: seq<Request>, b: seq<Request>, selected: Option<CategoryType>)
    ensures FilteredRequests(a + b, selected) == FilteredRequests(a, selected) + FilteredRequests(b, selected)
  {
    if selected.Some? {
      FilterAppend(a, b, InCategory(selected.value));
    }
  }

  /** `sortedRequests`: the filtered requests, newest first. */
  function SortedRequests(filtered: seq<Request>): (r: seq<Request>)
    ensures NewestFirst(r)
    ensures multiset(r) == multiset(filtered)
  {
    SortNewestFirst(filtered)
  }

  const RecentCount: nat := 3

  /** `recentRequests`: the first three sorted requests, or all of them. */
  function RecentRequests(sorted: seq<Request>): (r: seq<Request>)
    ensures |r| == if |sorted| < RecentCount then |sorted| else RecentCount
    ensures r == sorted[..|r|]
  {
    Take(sorted, RecentCount)
  }

  /** The home page's recent list holds requests of the selected category
      that are at least as new as every request it leaves out. */
  lemma {:induction false} RecentAreNewest(requests: seq<Request>, selected: Option<CategoryType>)
    ensures var sorted := SortedRequests(FilteredRequests(requests, selected));
            var recent := RecentRequests(sorted);
            && NewestFirst(recent)
            && (forall q :: q in recent ==> q in FilteredRequests(requests, selected))
            && (forall i, j :: 0 <= i < |recent| <= j < |sorted| ==> recent[i].createdAt >= sorted[j].createdAt)
  {
    var filtered := FilteredRequests(requests, selected);
    var sorted := SortedRequests(filtered);
    var recent := RecentRequests(sorted);
    forall q | q in recent ensures q in filtered {
      assert q in multiset(sorted);
    }
  }

  /** `handleCategorySelect`: choosing the selected category clears the
      selection; choosing any other category selects it. */
  function ToggleCategory(selected: Option<CategoryType>, c: CategoryType): (r: Option<CategoryType>)
    ensures r == Some(c) <==> selected != Some(c)
    ensures r.None? <==> selected == Some(c)
  {
    if selected == Some(c) then None else Some(c)
  }

  /** Choosing the same category twice from a state showing either nothing
      or that category returns to where it started. */
  lemma {:induction false} ToggleTwice(selected: Option<CategoryType>, c: CategoryType)
    requires selected.None? || selected == Some(c)
    ensures ToggleCategory(ToggleCategory(selected, c), c) == selected
  {
  }
}
