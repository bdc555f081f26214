/**
 * The NewsAPI state slice: the fetched articles, the subset currently shown, the filter
 * fields and the paging and loading flags. Every reducer assigns fields of the state in
 * place; the only pure part is the local search that `setAuthor` and a completed fetch
 * apply to the fetched articles.
 */
module NewsSlice {
  import opened Wrappers
  import opened JsText
  import opened Articles

  /** The fields of a NewsAPI article that the local search looks at; each may be missing. */
  datatype NewsArticle = NewsArticle(
    author: Option<string>,
    title: Option<string>,
    description: Option<string>,
    content: Option<string>)

  /** `field && field.toLowerCase().includes(term)`. */
  predicate FieldMatches(field: Option<string>, term: string) {
    Present(field) && Includes(ToLower(field.value), term)
  }

  /** The search predicate: the lowered term occurs in the author, title, description or content. */
  predicate Matches(a: NewsArticle, term: string) {
    FieldMatches(a.author, term) || FieldMatches(a.title, term)
    || FieldMatches(a.description, term) || FieldMatches(a.content, term)
  }

  /** `articles.filter(article => Matches(article, term))`. */
  function Filter(articles: seq<NewsArticle>, term: string): seq<NewsArticle> {
    if articles == [] then []
    else (if Matches(articles[0], term) then [articles[0]] else []) + Filter(articles[1..], term)
  }

  /** The articles shown for a given author filter: all of them when the filter is empty. */
  function Visible(all: seq<NewsArticle>, author: string): seq<NewsArticle> {
    if author == "" then all else Filter(all, ToLower(author))
  }

  /** The positions, from `start` on, of the articles that match. */
  function MatchIndices(articles: seq<NewsArticle>, term: string, start: nat): seq<nat>
    requires start <= |articles|
    decreases |articles| - start
  {
    if start == |articles| then []
    else (if Matches(articles[start], term) then [start] else []) + MatchIndices(articles, term, start + 1)
  }

  predicate Increasing(idx: seq<nat>) {
    forall k, l :: 0 <= k < l < |idx| ==> idx[k] < idx[l]
  }

  lemma {:induction false} FilterFrom(articles: seq<NewsArticle>, term: string, start: nat)
    requires start <= |articles|
    ensures var idx := MatchIndices(articles, term, start);
      var r := Filter(articles[start..], term);
      |idx| == |r| && Increasing(idx)
      && (forall k :: 0 <= k < |idx| ==> start <= idx[k] < |articles| && r[k] == articles[idx[k]])
      && (forall i :: start <= i < |articles| ==> (i in idx <==> Matches(articles[i], term)))
    decreases |articles| - start
  {
    if start < |articles| {
      FilterFrom(articles, term, start + 1);
      assert articles[start..][1..] == articles[start + 1..];
    }
  }

  /**
   * The search result is an order-preserving subsequence: it lists, in their original
   * order, exactly the articles at the positions that match, and no others.
   */
  lemma FilterIsSubsequence(articles: seq<NewsArticle>, term: string)
    ensures var idx := MatchIndices(articles, term, 0);
      var r := Filter(articles, term);
      |idx| == |r| && Increasing(idx)
      && (forall k :: 0 <= k < |idx| ==> idx[k] < |articles| && r[k] == articles[idx[k]])
      && (forall i :: 0 <= i < |articles| ==> (i in idx <==> Matches(articles[i], term)))
  {
    FilterFrom(articles, term, 0);
    assert articles[0..] == articles;
  }

  /** An article is in the result exactly when it is one of the input articles and matches. */
  lemma {:induction false} FilterMembers(articles: seq<NewsArticle>, term: string, a: NewsArticle)
    ensures a in Filter(articles, term) <==> a in articles && Matches(a, term)
  {
    if articles != [] {
      FilterMembers(articles[1..], term, a);
      assert articles == [articles[0]] + articles[1..];
    }
  }

  /** Searching the result again for the same term changes nothing. */
  lemma {:induction false} FilterIdempotent(articles: seq<NewsArticle>, term: string)
    ensures Filter(Filter(articles, term), term) == Filter(articles, term)
  {
    if articles != [] {
      FilterIdempotent(articles[1..], term);
      var rest := Filter(articles[1..], term);
      if Matches(articles[0], term) {
        var r := [articles[0]] + rest;
        assert Filter(articles, term) == r;
        assert r[0] == articles[0] && r[1..] == rest;
        assert Filter(r, term) == [articles[0]] + Filter(rest, term);
      } else {
        assert Filter(articles, term) == rest;
      }
    }
  }

  /** Some searched field of `a` contains `name` exactly as typed. */
  predicate ContainsVerbatim(a: NewsArticle, name: string) {
    (Present(a.author) && Includes(a.author.value, name))
    || (Present(a.title) && Includes(a.title.value, name))
    || (Present(a.description) && Includes(a.description.value, name))
    || (Present(a.content) && Includes(a.content.value, name))
  }

  /**
   * The search ignores case without losing exact hits: an article one of whose fields
   * contains the typed name verbatim is always shown.
   */
  lemma ExactHitShown(all: seq<NewsArticle>, name: string, a: NewsArticle)
    requires a in all && ContainsVerbatim(a, name)
    ensures a in Visible(all, name)
  {
    if name != "" {
      var term := ToLower(name);
      if Present(a.author) && Includes(a.author.value, name) {
        ToLowerKeepsIncludes(a.author.value, name);
      } else if Present(a.title) && Includes(a.title.value, name) {
        ToLowerKeepsIncludes(a.title.value, name);
      } else if Present(a.description) && Includes(a.description.value, name) {
        ToLowerKeepsIncludes(a.description.value, name);
      } else {
        ToLowerKeepsIncludes(a.content.value, name);
      }
      assert Matches(a, term);
      FilterMembers(all, term, a);
    }
  }

  /** `setAuthor("jane")`: an author "Jane Doe" and a title "jane's day" both match. */
  lemma JaneMatches(other: NewsArticle)
    requires !Matches(other, "jane")
    ensures var byAuthor := NewsArticle(Some("Jane Doe"), Some("Morning"), None, None);
      var byTitle := NewsArticle(None, Some("jane's day"), None, None);
      Visible([byAuthor, other, byTitle], "jane") == [byAuthor, byTitle]
  {
    var byAuthor := NewsArticle(Some("Jane Doe"), Some("Morning"), None, None);
    var byTitle := NewsArticle(None, Some("jane's day"), None, None);
    assert ToLower("jane") == "jane";
    assert ToLower("Jane Doe") == "jane doe";
    assert IsPrefix("jane", "jane doe");
    assert ToLower("jane's day") == "jane's day";
    assert IsPrefix("jane", "jane's day");
    var s := [byAuthor, other, byTitle];
    assert s[1..] == [other, byTitle];
    assert s[1..][1..] == [byTitle];
    assert Matches(byAuthor, "jane") && Matches(byTitle, "jane");
    assert Filter([byTitle], "jane") == [byTitle];
    assert Filter([other, byTitle], "jane") == [byTitle];
    assert Filter(s, "jane") == [byAuthor] + Filter([other, byTitle], "jane");
  }

  /** The `state` of the slice. */
  class NewsState {
    var articles: seq<NewsArticle>
    var allArticles: seq<NewsArticle>
    var loading: bool
    var error: Option<string>
    var selectedCategory: string
    var searchQuery: string
    var author: string
    var dateRange: DateRange
    var totalResults: int
    var currentPage: int
    var pageSize: int

    /** The articles shown are always the fetched ones under the current author filter. */
    ghost predicate Valid()
      reads this
    {
      articles == Visible(allArticles, author) && pageSize == 20
    }

    /** The filter fields hold their initial values. */
    ghost predicate FiltersCleared()
      reads this
    {
      searchQuery == "" && author == "" && dateRange == DateRange(None, None)
      && selectedCategory == "general" && currentPage == 1
    }

    /** `initialState`. */
    constructor ()
      ensures Valid() && FiltersCleared()
      ensures articles == [] && allArticles == [] && !loading && error == None
      ensures totalResults == 0
    {
      articles := [];
      allArticles := [];
      loading := false;
      error := None;
      selectedCategory := "general";
      searchQuery := "";
      author := "";
      dateRange := DateRange(None, None);
      totalResults := 0;
      currentPage := 1;
      pageSize := 20;
    }

    method SetCategory(category: string)
      requires Valid()
      modifies this
      ensures Valid()
      ensures selectedCategory == category
      ensures articles == old(articles) && allArticles == old(allArticles) && loading == old(loading)
      ensures error == old(error) && searchQuery == old(searchQuery) && author == old(author)
      ensures dateRange == old(dateRange) && totalResults == old(totalResults)
      ensures currentPage == old(currentPage) && pageSize == old(pageSize)
    {
      selectedCategory := category;
    }

    method SetSearchQuery(query: string)
      requires Valid()
      modifies this
      ensures Valid()
      ensures searchQuery == query
      ensures articles == old(articles) && allArticles == old(allArticles) && loading == old(loading)
      ensures error == old(error) && selectedCategory == old(selectedCategory) && author == old(author)
      ensures dateRange == old(dateRange) && totalResults == old(totalResults)
      ensures currentPage == old(currentPage) && pageSize == old(pageSize)
    {
      searchQuery := query;
    }

    /**
     * A non-empty author shows the fetched articles that match it, ignoring case, and
     * counts them; the empty author shows and counts all of them.
     */
    method SetAuthor(name: string)
      requires Valid()
      modifies this
      ensures Valid()
      ensures author == name
      ensures name != "" ==> articles == Filter(allArticles, ToLower(name))
      ensures name == "" ==> articles == allArticles
      ensures totalResults == |articles|
      ensures allArticles == old(allArticles) && loading == old(loading) && error == old(error)
      ensures selectedCategory == old(selectedCategory) && searchQuery == old(searchQuery)
      ensures dateRange == old(dateRange) && currentPage == old(currentPage) && pageSize == old(pageSize)
    {
      author := name;
      if name != "" {
        var term := ToLower(name);
        articles := Filter(allArticles, term);
        totalResults := |articles|;
      } else {
        articles := allArticles;
        totalResults := |allArticles|;
      }
    }

    /** No range clears both bounds; otherwise an empty or missing bound becomes `null`. */
    method SetDateRange(range: Option<DateRange>)
      requires Valid()
      modifies this
      ensures Valid()
      ensures range.None? ==> dateRange == DateRange(None, None)
      ensures range.Some? ==> dateRange.from == (if Present(range.value.from) then range.value.from else None)
      ensures range.Some? ==> dateRange.to == (if Present(range.value.to) then range.value.to else None)
      ensures articles == old(articles) && allArticles == old(allArticles) && loading == old(loading)
      ensures error == old(error) && selectedCategory == old(selectedCategory) && author == old(author)
      ensures searchQuery == old(searchQuery) && totalResults == old(totalResults)
      ensures currentPage == old(currentPage) && pageSize == old(pageSize)
    {
      if range.None? {
        dateRange := DateRange(None, None);
        return;
      }
      dateRange := DateRange(
        if Present(range.value.from) then range.value.from else None,
        if Present(range.value.to) then range.value.to else None);
    }

    /** The page is stored as given, without any bound check. */
    method SetPage(page: int)
      requires Valid()
      modifies this
      ensures Valid()
      ensures currentPage == page
      ensures articles == old(articles) && allArticles == old(allArticles) && loading == old(loading)
      ensures error == old(error) && selectedCategory == old(selectedCategory) && author == old(author)
      ensures searchQuery == old(searchQuery) && dateRange == old(dateRange)
      ensures totalResults == old(totalResults) && pageSize == old(pageSize)
    {
      currentPage := page;
    }

    /** Resets every filter field and shows all fetched articles; the fetch state is untouched. */
    method ClearFilters()
      requires Valid()
      modifies this
      ensures Valid() && FiltersCleared()
      ensures articles == allArticles && totalResults == |allArticles|
      ensures allArticles == old(allArticles) && loading == old(loading) && error == old(error)
      ensures pageSize == old(pageSize)
    {
      searchQuery := "";
      author := "";
      dateRange := DateRange(None, None);
      selectedCategory := "general";
      currentPage := 1;
      articles := allArticles;
      totalResults := |allArticles|;
    }

    /** `fetchNews.pending`. */
    method FetchPending()
      requires Valid()
      modifies this
      ensures Valid()
      ensures loading && error == None
      ensures articles == old(articles) && allArticles == old(allArticles)
      ensures selectedCategory == old(selectedCategory) && searchQuery == old(searchQuery)
      ensures author == old(author) && dateRange == old(dateRange) && totalResults == old(totalResults)
      ensures currentPage == old(currentPage) && pageSize == old(pageSize)
    {
      loading := true;
      error := None;
    }

    /**
     * `fetchNews.fulfilled`: the payload's articles (none when missing) replace the fetched
     * set; an active author filter is applied again and its hits are counted, otherwise
     * the count is the total the payload reports.
     */
    method FetchFulfilled(payloadArticles: Option<seq<NewsArticle>>, payloadTotal: int)
      requires Valid()
      modifies this
      ensures Valid()
      ensures !loading
      ensures allArticles == (if payloadArticles.Some? then payloadArticles.value else [])
      ensures author != "" ==> articles == Filter(allArticles, ToLower(author)) && totalResults == |articles|
      ensures author == "" ==> articles == allArticles && totalResults == payloadTotal
      ensures error == old(error) && selectedCategory == old(selectedCategory)
      ensures searchQuery == old(searchQuery) && author == old(author) && dateRange == old(dateRange)
      ensures currentPage == old(currentPage) && pageSize == old(pageSize)
    {
      loading := false;
      allArticles := if payloadArticles.Some? then payloadArticles.value else [];
      if author != "" {
        var term := ToLower(author);
        articles := Filter(allArticles, term);
        totalResults := |articles|;
      } else {
        articles := allArticles;
        totalResults := payloadTotal;
      }
    }

    /** `fetchNews.rejected`: the error's message (possibly missing) is stored. */
    method FetchRejected(message: Option<string>)
      requires Valid()
      modifies this
      ensures Valid()
      ensures !loading && error == message
      ensures articles == old(articles) && allArticles == old(allArticles)
      ensures selectedCategory == old(selectedCategory) && searchQuery == old(searchQuery)
      ensures author == old(author) && dateRange == old(dateRange) && totalResults == old(totalResults)
      ensures currentPage == old(currentPage) && pageSize == old(pageSize)
    {
      loading := false;
      error := message;
    }
  }
}
