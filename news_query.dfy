/**
 * The query that `fetchNews` sends to NewsAPI: a base parameter object (key, language,
 * sort order, page size, page) overridden by the caller's extra parameters, then either
 * the top-headlines query (country and category) or the everything query, whose `q` is
 * assembled step by step from the search text, the category and the author.
 * The HTTP request itself and the API key's origin are not modelled.
 */
module NewsQuery {
  import opened Wrappers
  import opened JsText
  import opened Articles

  /** A query parameter value: the slice writes strings and numbers. */
  datatype Param = Text(s: string) | Number(n: int)

  datatype Endpoint = TopHeadlines | Everything

  const BaseUrl: string := "https://newsapi.org/v2"

  /** The path each endpoint is requested at. */
  function EndpointUrl(e: Endpoint): string {
    match e
    case TopHeadlines => BaseUrl + "/top-headlines"
    case Everything => BaseUrl + "/everything"
  }

  /** JavaScript truthiness of a parameter value. */
  predicate Truthy(p: Param) {
    match p
    case Text(s) => s != ""
    case Number(n) => n != 0
  }

  /** A value as it appears inside a template literal. */
  function ParamText(p: Param): string {
    match p
    case Text(s) => s
    case Number(n) => IntToString(n)
  }

  /** `{apiKey, language: 'en', sortBy: 'publishedAt', pageSize: 20, page, ...params}`. */
  function BaseQuery(apiKey: string, page: Option<int>, params: map<string, Param>): map<string, Param> {
    map["apiKey" := Text(apiKey), "language" := Text("en"), "sortBy" := Text("publishedAt"),
        "pageSize" := Number(20), "page" := Number(page.GetOr(1))] + params
  }

  /** A category narrows the query unless it is missing or `'general'`. */
  predicate CategoryApplies(category: string) {
    category != "" && category != "general"
  }

  function AuthorTerm(author: string): string {
    "author:\"" + author + "\""
  }

  /** The top-headlines endpoint is used exactly when there is no search text and no date bound. */
  predicate UsesTopHeadlines(searchQuery: string, dateRange: Option<DateRange>) {
    searchQuery == "" && !(dateRange.Some? && Present(dateRange.value.from))
    && !(dateRange.Some? && Present(dateRange.value.to))
  }

  /**
   * The words of `q` on the everything endpoint, in order: the search text (or an earlier
   * truthy `q` from the extra parameters), the category, and `author:"<author>"`, each
   * only when present.
   */
  function QueryTerms(searchQuery: string, category: string, author: string, base: map<string, Param>): seq<string> {
    (if searchQuery != "" then [searchQuery]
     else if "q" in base && Truthy(base["q"]) then [ParamText(base["q"])] else [])
    + (if CategoryApplies(category) then [category] else [])
    + (if author != "" then [AuthorTerm(author)] else [])
  }

  /** The first ten characters of an optional bound, when it is present. */
  function DateParam(bound: Option<string>): Option<string> {
    if Present(bound) then Some(Take(bound.value, 10)) else None
  }

  /** The base object with `from` and `to` set to the first ten characters of each present bound. */
  function WithDates(base: map<string, Param>, dateRange: Option<DateRange>): (m: map<string, Param>)
    ensures "q" in m <==> "q" in base
    ensures "q" in base ==> m["q"] == base["q"]
  {
    var dates := if dateRange.Some? then dateRange.value else DateRange(None, None);
    var withFrom := if Present(dates.from) then base["from" := Text(Take(dates.from.value, 10))] else base;
    if Present(dates.to) then withFrom["to" := Text(Take(dates.to.value, 10))] else withFrom
  }

  /**
   * `fetchNews`'s parameter building: starting from the base object, it writes the
   * country and category (top headlines) or `q`, `from` and `to` (everything), one
   * conditional assignment at a time.
   */
  method BuildQuery(apiKey: string, category: string, searchQuery: string, dateRange: Option<DateRange>,
                    author: string, page: Option<int>, params: map<string, Param>)
    returns (endpoint: Endpoint, query: map<string, Param>)
    ensures var base := BaseQuery(apiKey, page, params);
      endpoint == (if UsesTopHeadlines(searchQuery, dateRange) then TopHeadlines else Everything)
      && (endpoint == TopHeadlines ==>
            query == (if CategoryApplies(category) then base["country" := Text("us")]["category" := Text(category)]
                      else base["country" := Text("us")]))
      && (endpoint == Everything ==>
            var terms := QueryTerms(searchQuery, category, author, base);
            var dated := WithDates(base, dateRange);
            var rewritesQ := searchQuery != "" || CategoryApplies(category) || author != "";
            query == if rewritesQ then dated["q" := Text(Join(terms, " "))] else dated)
  {
    query := BaseQuery(apiKey, page, params);
    var from := if dateRange.Some? then dateRange.value.from else None;
    var to := if dateRange.Some? then dateRange.value.to else None;

    if searchQuery == "" && !Present(from) && !Present(to) {
      query := query["country" := Text("us")];
      if category != "" && category != "general" {
        query := query["category" := Text(category)];
      }
      endpoint := TopHeadlines;
      return;
    }
    query := EverythingQuery(query, category, searchQuery, dateRange, author);
    endpoint := Everything;
  }

  /** The search text and the two date bounds, each written only when present. */
  method SearchAndDates(base: map<string, Param>, searchQuery: string, dateRange: Option<DateRange>)
    returns (query: map<string, Param>)
    ensures query == if searchQuery != "" then WithDates(base, dateRange)["q" := Text(searchQuery)] else WithDates(base, dateRange)
  {
    var from := if dateRange.Some? then dateRange.value.from else None;
    var to := if dateRange.Some? then dateRange.value.to else None;
    query := base;
    if searchQuery != "" {
      query := query["q" := Text(searchQuery)];
    }
    if Present(from) {
      query := query["from" := Text(Take(from.value, 10))];
    }
    if Present(to) {
      query := query["to" := Text(Take(to.value, 10))];
    }
  }

  /** `params.q = params.q ? `${params.q} ${word}` : word`. */
  method AppendToQ(query: map<string, Param>, word: string) returns (next: map<string, Param>)
    ensures next == if "q" in query && Truthy(query["q"]) then query["q" := Text(ParamText(query["q"]) + " " + word)]
                    else query["q" := Text(word)]
  {
    if "q" in query && Truthy(query["q"]) {
      next := query["q" := Text(ParamText(query["q"]) + " " + word)];
    } else {
      next := query["q" := Text(word)];
    }
  }

  /** The everything branch: search text and dates, then the category and the author folded into `q`. */
  method EverythingQuery(base: map<string, Param>, category: string, searchQuery: string,
                         dateRange: Option<DateRange>, author: string)
    returns (query: map<string, Param>)
    ensures var terms := QueryTerms(searchQuery, category, author, base);
      var dated := WithDates(base, dateRange);
      var rewritesQ := searchQuery != "" || CategoryApplies(category) || author != "";
      query == if rewritesQ then dated["q" := Text(Join(terms, " "))] else dated
  {
    ghost var dated := WithDates(base, dateRange);
    query := SearchAndDates(base, searchQuery, dateRange);
    ghost var terms := QueryTerms(searchQuery, "", "", base);
    QStart(base, dated, searchQuery, query);
    query := AppendWhen(query, category != "" && category != "general", category, dated, terms, searchQuery != "");
    terms := terms + (if CategoryApplies(category) then [category] else []);
    query := AppendWhen(query, author != "", AuthorTerm(author), dated, terms, searchQuery != "" || CategoryApplies(category));
    terms := terms + (if author != "" then [AuthorTerm(author)] else []);
    TermsInOrder(searchQuery, category, author, base);
  }

  /** The words of `q` are those of the search text, then the category's, then the author's. */
  lemma TermsInOrder(searchQuery: string, category: string, author: string, base: map<string, Param>)
    ensures QueryTerms(searchQuery, category, author, base)
      == QueryTerms(searchQuery, "", "", base) + (if CategoryApplies(category) then [category] else [])
         + (if author != "" then [AuthorTerm(author)] else [])
  {
    var first := QueryTerms(searchQuery, "", "", base);
    assert !CategoryApplies("");
    assert first == (if searchQuery != "" then [searchQuery]
      else if "q" in base && Truthy(base["q"]) then [ParamText(base["q"])] else []) + [] + [];
  }

  /** One `if (...) params.q = ...` step: the word joins `q` when the condition holds. */
  method AppendWhen(query: map<string, Param>, applies: bool, word: string,
                    ghost dated: map<string, Param>, ghost terms: seq<string>, ghost rewritten: bool)
    returns (next: map<string, Param>)
    requires QState(query, dated, terms, rewritten) && (applies ==> word != "")
    ensures QState(next, dated, terms + (if applies then [word] else []), rewritten || applies)
  {
    if applies {
      next := AppendToQ(query, word);
      QStep(query, dated, terms, rewritten, word);
    } else {
      next := query;
      assert terms + [] == terms;
    }
  }

  /** After the search text and dates are written, the words of `q` so far are the search text or an earlier `q`. */
  lemma QStart(base: map<string, Param>, dated: map<string, Param>, searchQuery: string, query: map<string, Param>)
    requires "q" in dated <==> "q" in base
    requires "q" in base ==> dated["q"] == base["q"]
    requires query == if searchQuery != "" then dated["q" := Text(searchQuery)] else dated
    ensures QState(query, dated, QueryTerms(searchQuery, "", "", base), searchQuery != "")
  {
  }

  /**
   * What the everything branch keeps true while it rewrites `q`: the query is the dated
   * base with, once rewritten, `q` set to the words so far; `q` is truthy exactly when
   * there are words, and then reads as them joined by spaces.
   */
  ghost predicate QState(query: map<string, Param>, dated: map<string, Param>, terms: seq<string>, rewritten: bool) {
    (query == if rewritten then dated["q" := Text(Join(terms, " "))] else dated)
    && (terms != [] <==> "q" in query && Truthy(query["q"]))
    && (terms != [] ==> ParamText(query["q"]) == Join(terms, " "))
    && (rewritten ==> terms != [])
  }

  /** One rewrite of `q`: append the word after a space, or start `q` with it. */
  lemma QStep(query: map<string, Param>, dated: map<string, Param>, terms: seq<string>, rewritten: bool, t: string)
    requires QState(query, dated, terms, rewritten) && t != ""
    ensures var next := if "q" in query && Truthy(query["q"]) then query["q" := Text(ParamText(query["q"]) + " " + t)]
                        else query["q" := Text(t)];
      QState(next, dated, terms + [t], true)
  {
    JoinSnoc(terms, t, " ");
    if !rewritten {
      assert dated["q" := Text(Join(terms + [t], " "))] == query["q" := Text(Join(terms + [t], " "))];
    }
  }

  /** With only an author, `q` is `author:"<author>"` and nothing else. */
  lemma AuthorOnlyQuery(author: string, base: map<string, Param>)
    requires author != "" && "q" !in base
    ensures QueryTerms("", "general", author, base) == [AuthorTerm(author)]
    ensures Join(QueryTerms("", "general", author, base), " ") == "author:\"" + author + "\""
  {
  }

  /** The author term always comes last in `q`, after a single space. */
  lemma AuthorTermLast(searchQuery: string, category: string, author: string, base: map<string, Param>)
    requires author != ""
    requires searchQuery != "" || CategoryApplies(category)
    ensures var terms := QueryTerms(searchQuery, category, author, base);
      var rest := terms[..|terms| - 1];
      Join(terms, " ") == Join(rest, " ") + " " + AuthorTerm(author)
  {
    var terms := QueryTerms(searchQuery, category, author, base);
    var rest := terms[..|terms| - 1];
    assert terms == rest + [AuthorTerm(author)];
    JoinSnoc(rest, AuthorTerm(author), " ");
  }

  /**
   * The base parameters: with no extra parameters they are the key, English, newest
   * first, 20 per page and the given page (1 by default); any extra parameter wins.
   */
  lemma BaseQueryValues(apiKey: string, page: Option<int>, params: map<string, Param>)
    ensures params == map[] ==> BaseQuery(apiKey, page, params) == map["apiKey" := Text(apiKey),
      "language" := Text("en"), "sortBy" := Text("publishedAt"), "pageSize" := Number(20),
      "page" := Number(if page.Some? then page.value else 1)]
    ensures forall k :: k in params ==> k in BaseQuery(apiKey, page, params) && BaseQuery(apiKey, page, params)[k] == params[k]
    ensures "pageSize" !in params ==> BaseQuery(apiKey, page, params)["pageSize"] == Number(20)
  {
  }

  /** A present date bound is sent as at most its first ten characters, a missing one not at all. */
  lemma DatesTruncated(base: map<string, Param>, dateRange: DateRange)
    requires "from" !in base && "to" !in base
    ensures var m := WithDates(base, Some(dateRange));
      ("from" in m <==> Present(dateRange.from))
      && ("to" in m <==> Present(dateRange.to))
      && ("from" in m ==> m["from"].Text? && |m["from"].s| <= 10 && IsPrefix(m["from"].s, dateRange.from.value))
      && ("to" in m ==> m["to"].Text? && |m["to"].s| <= 10 && IsPrefix(m["to"].s, dateRange.to.value))
  {
  }
}
