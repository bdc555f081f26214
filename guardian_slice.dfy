/**
 * The Guardian state slice and its fetch: the request URL is built one optional
 * parameter at a time, the reply is checked, and each upstream result is mapped onto
 * the internal article shape that the dashboard aggregates. Percent-encoding, date
 * conversion and the HTTP request are parameters of the model: `encode` stands for
 * `encodeURIComponent`, `toIso` for `new Date(s).toISOString()` (None when it throws)
 * and `fetch` for the request with its decoded JSON reply (Err when it throws).
 */
module GuardianSlice {
  import opened Wrappers
  import opened JsText
  import opened Articles
  import Payout

  const SearchEndpoint: string := "https://content.guardianapis.com/search"
  const ShowFields: string := "show-fields=thumbnail,bodyText,byline"
  const DefaultPageSize := 30
  const DescriptionLength := 200
  const GuardianName: string := "The Guardian"

  const MissingKeyMessage: string := "Guardian API key is not configured"
  const FetchFailedMessage: string := "Failed to fetch news"
  const BadFormatMessage: string := "Invalid response format from Guardian API"
  /** The message of the `RangeError` that `toISOString` throws on an invalid date. */
  const InvalidDateMessage: string := "Invalid time value"

  // ---------------------------------------------------------------- upstream shapes

  datatype GuardianFields = GuardianFields(thumbnail: Option<string>, bodyText: Option<string>, byline: Option<string>)

  datatype GuardianResult = GuardianResult(
    webTitle: string,
    webUrl: string,
    webPublicationDate: string,
    fields: Option<GuardianFields>)

  /** `data.response`: the results array (possibly missing) and the reported total. */
  datatype ResponseBody = ResponseBody(results: Option<seq<GuardianResult>>, total: int)

  /** `response.ok` together with the decoded body `data`. */
  datatype Reply = Reply(ok: bool, message: Option<string>, response: Option<ResponseBody>)

  /** What the thunk fulfils with. */
  datatype Payload = Payload(articles: seq<Article>, totalResults: int)

  // ---------------------------------------------------------------- the request URL

  /** `new Date(s).toISOString().split('T')[0]` once the conversion succeeded. */
  function DayOf(iso: string): string {
    Split(iso, 'T')[0]
  }

  /** A date bound converted for the URL: absent, converted, or the conversion's error. */
  function ConvertBound(bound: Option<string>, toIso: string -> Option<string>): Result<Option<string>, string> {
    if !Present(bound) then Ok(None)
    else if toIso(bound.value).None? then Err(InvalidDateMessage)
    else Ok(Some(DayOf(toIso(bound.value).value)))
  }

  function FromBound(dateRange: Option<DateRange>): Option<string> {
    if dateRange.Some? then dateRange.value.from else None
  }

  function ToBound(dateRange: Option<DateRange>): Option<string> {
    if dateRange.Some? then dateRange.value.to else None
  }

  /**
   * The `&`-separated pieces of the URL: the endpoint with the key, the fields shown,
   * the page size, then `q`, `byline`, `from-date` and `to-date`, each only when given.
   */
  function UrlParts(apiKey: string, pageSize: int, searchQuery: string, author: string,
                    fromDay: Option<string>, toDay: Option<string>, encode: string -> string): seq<string> {
    BaseParts(apiKey, pageSize)
    + TextPiece("q=", searchQuery, encode)
    + TextPiece("byline=", author, encode)
    + DatePiece("from-date=", fromDay)
    + DatePiece("to-date=", toDay)
  }

  /** The piece of a text parameter, percent-encoded, when the text is not empty. */
  function TextPiece(name: string, text: string, encode: string -> string): seq<string> {
    if text != "" then [name + encode(text)] else []
  }

  /** A converted date bound's piece, when the bound was given. */
  function DatePiece(name: string, day: Option<string>): seq<string> {
    if day.Some? then [name + day.value] else []
  }

  /** The pieces every request has. */
  function BaseParts(apiKey: string, pageSize: int): seq<string> {
    [SearchEndpoint + "?api-key=" + apiKey, ShowFields, "page-size=" + IntToString(pageSize)]
  }

  // ---------------------------------------------------------------- mapping and validation

  /** One upstream result in the internal shape; missing or empty fields get their defaults. */
  function MapResult(r: GuardianResult): (a: Article)
    ensures a.source.name == GuardianName
    ensures |a.description| <= DescriptionLength
    ensures a.title == r.webTitle && a.url == r.webUrl && a.publishedAt == r.webPublicationDate
  {
    var body := if r.fields.Some? then r.fields.value.bodyText else None;
    var thumb := if r.fields.Some? then r.fields.value.thumbnail else None;
    var byline := if r.fields.Some? then r.fields.value.byline else None;
    Article(
      r.webTitle,
      if body.Some? then Take(body.value, DescriptionLength) else "",
      r.webUrl,
      if Present(thumb) then thumb else None,
      r.webPublicationDate,
      if Present(byline) then byline else None,
      Source(GuardianName))
  }

  /** `results.map(MapResult)`. */
  function MapResults(results: seq<GuardianResult>): (articles: seq<Article>)
    ensures |articles| == |results|
    ensures forall i :: 0 <= i < |results| ==> articles[i] == MapResult(results[i])
  {
    seq(|results|, i requires 0 <= i < |results| => MapResult(results[i]))
  }

  /** The checks on the reply, in the order the thunk makes them, then the mapping. */
  function Validate(reply: Result<Reply, string>): Result<Payload, string> {
    if reply.Err? then Err(reply.error)
    else if !reply.value.ok then Err(if Present(reply.value.message) then reply.value.message.value else FetchFailedMessage)
    else if reply.value.response.None? || reply.value.response.value.results.None? then Err(BadFormatMessage)
    else Ok(Payload(MapResults(reply.value.response.value.results.value), reply.value.response.value.total))
  }

  /** The shape every article of the slice has. */
  predicate GuardianArticle(a: Article) {
    a.source.name == GuardianName && |a.description| <= DescriptionLength
    && (a.author.Some? ==> a.author.value != "") && (a.urlToImage.Some? ==> a.urlToImage.value != "")
  }

  /**
   * A mapped article: its description is the first 200 characters of the body text, or
   * empty without one; its image and author are the thumbnail and byline, or `null` when
   * those are missing or empty.
   */
  lemma MapResultDefaults(r: GuardianResult)
    ensures var a := MapResult(r);
      var f := r.fields;
      GuardianArticle(a)
      && (f.Some? && f.value.bodyText.Some? ==>
            (IsPrefix(a.description, f.value.bodyText.value)
             && |a.description| == if |f.value.bodyText.value| < 200 then |f.value.bodyText.value| else 200))
      && (f.None? || f.value.bodyText.None? ==> a.description == "")
      && (a.author.None? <==> f.None? || !Present(f.value.byline))
      && (a.author.Some? ==> a.author == f.value.byline)
      && (a.urlToImage.None? <==> f.None? || !Present(f.value.thumbnail))
      && (a.urlToImage.Some? ==> a.urlToImage == f.value.thumbnail)
  {
  }

  /**
   * The dashboard groups a Guardian article under its byline, and under "Unknown" when
   * the result has no byline or an empty one.
   */
  lemma GuardianAuthorKey(r: GuardianResult)
    ensures var f := r.fields;
      Payout.AuthorKey(MapResult(r).author)
        == if f.Some? && Present(f.value.byline) then f.value.byline.value else Payout.UnknownAuthor
  {
  }

  /**
   * A reply is accepted exactly when the request did not throw, the status is ok and the
   * results array is there; then every result is mapped, in order, and nothing is
   * dropped. Otherwise the error says which check failed.
   */
  lemma ValidateOutcome(reply: Result<Reply, string>)
    ensures Validate(reply).Ok? <==>
      reply.Ok? && reply.value.ok && reply.value.response.Some? && reply.value.response.value.results.Some?
    ensures Validate(reply).Ok? ==>
      var results := reply.value.response.value.results.value;
      |Validate(reply).value.articles| == |results|
      && (forall i :: 0 <= i < |results| ==> Validate(reply).value.articles[i] == MapResult(results[i]))
      && (forall i :: 0 <= i < |results| ==> GuardianArticle(Validate(reply).value.articles[i]))
      && Validate(reply).value.totalResults == reply.value.response.value.total
    ensures reply.Ok? && !reply.value.ok ==>
      Validate(reply) == Err(if Present(reply.value.message) then reply.value.message.value else FetchFailedMessage)
    ensures reply.Ok? && reply.value.ok && (reply.value.response.None? || reply.value.response.value.results.None?) ==>
      Validate(reply) == Err(BadFormatMessage)
  {
    if Validate(reply).Ok? {
      var results := reply.value.response.value.results.value;
      forall i | 0 <= i < |results| ensures GuardianArticle(Validate(reply).value.articles[i]) {
        MapResultDefaults(results[i]);
      }
    }
  }

  lemma EndpointLacksAmp()
    ensures Lacks(SearchEndpoint + "?api-key=", '&')
  {
  }

  lemma ShowFieldsLacksAmp()
    ensures Lacks(ShowFields, '&')
  {
  }

  lemma NamesLackAmp()
    ensures Lacks("page-size=", '&') && Lacks("q=", '&') && Lacks("byline=", '&')
    ensures Lacks("from-date=", '&') && Lacks("to-date=", '&')
  {
  }

  lemma BasePartsLack(apiKey: string, pageSize: int)
    requires Lacks(apiKey, '&')
    ensures AllLack(BaseParts(apiKey, pageSize), '&')
  {
    EndpointLacksAmp();
    ShowFieldsLacksAmp();
    NamesLackAmp();
    LacksConcat(SearchEndpoint + "?api-key=", apiKey, '&');
    IntToStringLacks(pageSize, '&');
    LacksConcat("page-size=", IntToString(pageSize), '&');
  }

  /** An optional `name=value` piece has no `c` when neither half has one. */
  lemma PieceLacks(present: bool, name: string, value: string, c: char)
    requires Lacks(name, c) && (present ==> Lacks(value, c))
    ensures AllLack(if present then [name + value] else [], c)
  {
    if present {
      LacksConcat(name, value, c);
    }
  }

  /** No `&` inside a piece: the URL splits on `&` back into exactly its pieces, in order. */
  lemma UrlSplits(apiKey: string, pageSize: int, searchQuery: string, author: string,
                  fromDay: Option<string>, toDay: Option<string>, encode: string -> string)
    requires forall s :: Lacks(encode(s), '&')
    requires Lacks(apiKey, '&')
    requires fromDay.Some? ==> Lacks(fromDay.value, '&')
    requires toDay.Some? ==> Lacks(toDay.value, '&')
    ensures var parts := UrlParts(apiKey, pageSize, searchQuery, author, fromDay, toDay, encode);
      Split(Join(parts, "&"), '&') == parts
  {
    var c := '&';
    var base := BaseParts(apiKey, pageSize);
    var q := TextPiece("q=", searchQuery, encode);
    var byl := TextPiece("byline=", author, encode);
    var fd := DatePiece("from-date=", fromDay);
    var td := DatePiece("to-date=", toDay);
    BasePartsLack(apiKey, pageSize);
    NamesLackAmp();
    PieceLacks(searchQuery != "", "q=", encode(searchQuery), c);
    PieceLacks(author != "", "byline=", encode(author), c);
    PieceLacks(fromDay.Some?, "from-date=", if fromDay.Some? then fromDay.value else "", c);
    PieceLacks(toDay.Some?, "to-date=", if toDay.Some? then toDay.value else "", c);
    AllLackAppend(base, q, c);
    AllLackAppend(base + q, byl, c);
    AllLackAppend(base + q + byl, fd, c);
    AllLackAppend(base + q + byl + fd, td, c);
    SplitJoin(base + q + byl + fd + td, c);
  }

  // ---------------------------------------------------------------- the thunk

  /** `url += `&name=value``: one more piece of the `&`-joined URL. */
  lemma AppendPiece(url: string, parts: seq<string>, tag: string, name: string, value: string)
    requires |parts| > 0 && url == Join(parts, "&")
    requires tag == "&" + name
    ensures url + tag + value == Join(parts + [name + value], "&")
  {
    JoinSnoc(parts, name + value, "&");
  }

  /** Each appended `&name=` is the separator followed by the parameter's name. */
  lemma Tags()
    ensures "&page-size=" == "&" + "page-size="
    ensures "&q=" == "&" + "q=" && "&byline=" == "&" + "byline="
    ensures "&from-date=" == "&" + "from-date=" && "&to-date=" == "&" + "to-date="
  {
  }

  /** The URL template's fixed start is the join of the first three pieces. */
  lemma BaseUrlJoin(apiKey: string, size: int)
    ensures SearchEndpoint + "?api-key=" + apiKey + "&" + ShowFields + "&page-size=" + IntToString(size)
      == Join(BaseParts(apiKey, size), "&")
  {
    var start := SearchEndpoint + "?api-key=" + apiKey;
    JoinThree(start, ShowFields, "page-size=" + IntToString(size), "&");
    Tags();
  }

  /** `if (text) url += `&name=${encodeURIComponent(text)}``. */
  method AppendText(url: string, ghost parts: seq<string>, tag: string, name: string, text: string,
                    encode: string -> string)
    returns (extended: string)
    requires |parts| > 0 && url == Join(parts, "&") && tag == "&" + name
    ensures extended == Join(parts + TextPiece(name, text, encode), "&")
  {
    if text != "" {
      AppendPiece(url, parts, tag, name, encode(text));
      return url + tag + encode(text);
    }
    assert parts + [] == parts;
    return url;
  }

  /**
   * `if (bound) url += `&name=${new Date(bound).toISOString().split('T')[0]}``: appends
   * the bound's day when there is a bound, and fails when its conversion throws.
   */
  method AppendBound(url: string, ghost parts: seq<string>, tag: string, name: string, bound: Option<string>,
                     toIso: string -> Option<string>)
    returns (extended: Result<string, string>)
    requires |parts| > 0 && url == Join(parts, "&") && tag == "&" + name
    ensures extended.Ok? <==> ConvertBound(bound, toIso).Ok?
    ensures extended.Ok? ==> extended.value == Join(parts + DatePiece(name, ConvertBound(bound, toIso).value), "&")
    ensures extended.Err? ==> extended.error == InvalidDateMessage
  {
    if Present(bound) {
      var iso := toIso(bound.value);
      if iso.None? {
        return Err(InvalidDateMessage);
      }
      var day := DayOf(iso.value);
      AppendPiece(url, parts, tag, name, day);
      return Ok(url + tag + day);
    }
    assert parts + [] == parts;
    return Ok(url);
  }

  /**
   * The URL of `fetchGuardianNews`, built by successive appends; a date bound that
   * cannot be converted aborts the build with the conversion's error.
   */
  method BuildUrl(apiKey: string, searchQuery: string, author: string, dateRange: Option<DateRange>,
                  size: int, encode: string -> string, toIso: string -> Option<string>)
    returns (built: Result<string, string>)
    ensures built.Ok? <==> ConvertBound(FromBound(dateRange), toIso).Ok? && ConvertBound(ToBound(dateRange), toIso).Ok?
    ensures built.Ok? ==> built.value == Join(UrlParts(apiKey, size, searchQuery, author,
      ConvertBound(FromBound(dateRange), toIso).value, ConvertBound(ToBound(dateRange), toIso).value, encode), "&")
    ensures built.Err? ==> built.error == InvalidDateMessage
  {
    var url := SearchEndpoint + "?api-key=" + apiKey + "&" + ShowFields + "&page-size=" + IntToString(size);
    ghost var parts := BaseParts(apiKey, size);
    BaseUrlJoin(apiKey, size);
    Tags();

    url := AppendText(url, parts, "&q=", "q=", searchQuery, encode);
    parts := parts + TextPiece("q=", searchQuery, encode);
    url := AppendText(url, parts, "&byline=", "byline=", author, encode);
    parts := parts + TextPiece("byline=", author, encode);
    ghost var early := parts;
    var withFrom := AppendBound(url, parts, "&from-date=", "from-date=", FromBound(dateRange), toIso);
    if withFrom.Err? {
      return withFrom;
    }
    ghost var fromDay := ConvertBound(FromBound(dateRange), toIso).value;
    url := withFrom.value;
    parts := parts + DatePiece("from-date=", fromDay);
    var withTo := AppendBound(url, parts, "&to-date=", "to-date=", ToBound(dateRange), toIso);
    if withTo.Err? {
      return withTo;
    }
    ghost var toDay := ConvertBound(ToBound(dateRange), toIso).value;
    UrlPartsAre(apiKey, size, searchQuery, author, fromDay, toDay, encode, early);
    assert parts + DatePiece("to-date=", toDay) == UrlParts(apiKey, size, searchQuery, author, fromDay, toDay, encode);
    return withTo;
  }

  lemma UrlPartsAre(apiKey: string, size: int, searchQuery: string, author: string,
                    fromDay: Option<string>, toDay: Option<string>, encode: string -> string, early: seq<string>)
    requires early == BaseParts(apiKey, size)
      + TextPiece("q=", searchQuery, encode) + TextPiece("byline=", author, encode)
    ensures UrlParts(apiKey, size, searchQuery, author, fromDay, toDay, encode)
      == early + DatePiece("from-date=", fromDay) + DatePiece("to-date=", toDay)
  {
  }

  /**
   * `fetchGuardianNews`: fails without an API key; otherwise builds the URL (a date that
   * cannot be converted fails the fetch), requests it once and validates the reply.
   * `requested` is the URL requested, if the request was made.
   */
  method FetchGuardianNews(apiKey: Option<string>, searchQuery: string, author: string,
                           dateRange: Option<DateRange>, pageSize: Option<int>,
                           encode: string -> string, toIso: string -> Option<string>,
                           fetch: string -> Result<Reply, string>)
    returns (outcome: Result<Payload, string>, requested: Option<string>)
    ensures !Present(apiKey) ==> outcome == Err(MissingKeyMessage) && requested.None?
    ensures requested.Some? <==>
      Present(apiKey) && ConvertBound(FromBound(dateRange), toIso).Ok? && ConvertBound(ToBound(dateRange), toIso).Ok?
    ensures requested.Some? ==>
      requested.value == Join(UrlParts(apiKey.value, pageSize.GetOr(DefaultPageSize), searchQuery, author,
        ConvertBound(FromBound(dateRange), toIso).value, ConvertBound(ToBound(dateRange), toIso).value, encode), "&")
      && outcome == Validate(fetch(requested.value))
    ensures Present(apiKey) && requested.None? ==> outcome == Err(InvalidDateMessage)
  {
    if !Present(apiKey) {
      return Err(MissingKeyMessage), None;
    }
    var built := BuildUrl(apiKey.value, searchQuery, author, dateRange, pageSize.GetOr(DefaultPageSize), encode, toIso);
    if built.Err? {
      return Err(built.error), None;
    }
    var reply := fetch(built.value);
    outcome := Validate(reply);
    requested := Some(built.value);
  }

  // ---------------------------------------------------------------- the slice

  /** The `state` of the slice. */
  class GuardianState {
    var articles: seq<Article>
    var loading: bool
    var error: Option<string>
    var totalResults: int
    var searchQuery: string
    var author: string
    var dateRange: DateRange

    /** The articles held are always mapped Guardian results. */
    ghost predicate Valid()
      reads this
    {
      forall i :: 0 <= i < |articles| ==> GuardianArticle(articles[i])
    }

    /** `initialState`. */
    constructor ()
      ensures Valid()
      ensures articles == [] && !loading && error == None && totalResults == 0
      ensures searchQuery == "" && author == "" && dateRange == DateRange(None, None)
    {
      articles := [];
      loading := false;
      error := None;
      totalResults := 0;
      searchQuery := "";
      author := "";
      dateRange := DateRange(None, None);
    }

    method SetSearchQuery(query: string)
      requires Valid()
      modifies this
      ensures Valid()
      ensures searchQuery == query
      ensures articles == old(articles) && loading == old(loading) && error == old(error)
      ensures totalResults == old(totalResults) && author == old(author) && dateRange == old(dateRange)
    {
      searchQuery := query;
    }

    method SetAuthor(name: string)
      requires Valid()
      modifies this
      ensures Valid()
      ensures author == name
      ensures articles == old(articles) && loading == old(loading) && error == old(error)
      ensures totalResults == old(totalResults) && searchQuery == old(searchQuery) && dateRange == old(dateRange)
    {
      author := name;
    }

    method SetDateRange(range: DateRange)
      requires Valid()
      modifies this
      ensures Valid()
      ensures dateRange == range
      ensures articles == old(articles) && loading == old(loading) && error == old(error)
      ensures totalResults == old(totalResults) && searchQuery == old(searchQuery) && author == old(author)
    {
      dateRange := range;
    }

    /** Resets the three filter fields only; the fetched articles and flags stay. */
    method ClearFilters()
      requires Valid()
      modifies this
      ensures Valid()
      ensures searchQuery == "" && author == "" && dateRange == DateRange(None, None)
      ensures articles == old(articles) && loading == old(loading) && error == old(error)
      ensures totalResults == old(totalResults)
    {
      searchQuery := "";
      author := "";
      dateRange := DateRange(None, None);
    }

    method FetchPending()
      requires Valid()
      modifies this
      ensures Valid()
      ensures loading && error == None
      ensures articles == old(articles) && totalResults == old(totalResults)
      ensures searchQuery == old(searchQuery) && author == old(author) && dateRange == old(dateRange)
    {
      loading := true;
      error := None;
    }

    /** Fulfilment with a payload produced by `Validate`. */
    method FetchFulfilled(payload: Payload)
      requires Valid()
      requires forall i :: 0 <= i < |payload.articles| ==> GuardianArticle(payload.articles[i])
      modifies this
      ensures Valid()
      ensures !loading && articles == payload.articles && totalResults == payload.totalResults
      ensures error == old(error)
      ensures searchQuery == old(searchQuery) && author == old(author) && dateRange == old(dateRange)
    {
      loading := false;
      articles := payload.articles;
      totalResults := payload.totalResults;
    }

    /** Rejection stores the message the thunk rejected with. */
    method FetchRejected(message: string)
      requires Valid()
      modifies this
      ensures Valid()
      ensures !loading && error == Some(message)
      ensures articles == old(articles) && totalResults == old(totalResults)
      ensures searchQuery == old(searchQuery) && author == old(author) && dateRange == old(dateRange)
    {
      loading := false;
      error := Some(message);
    }

    /**
     * Settling a fetch: success replaces the articles with the mapped results and their
     * total, failure keeps them and records the message; either way loading ends.
     */
    method Settle(outcome: Result<Payload, string>, ghost reply: Result<Reply, string>)
      requires Valid()
      requires outcome == Validate(reply)
      modifies this
      ensures Valid()
      ensures !loading
      ensures outcome.Ok? ==> articles == outcome.value.articles && totalResults == outcome.value.totalResults
      ensures outcome.Ok? ==> error == old(error)
      ensures outcome.Err? ==> error == Some(outcome.error) && articles == old(articles)
      ensures outcome.Err? ==> totalResults == old(totalResults)
      ensures searchQuery == old(searchQuery) && author == old(author) && dateRange == old(dateRange)
    {
      ValidateOutcome(reply);
      if outcome.Ok? {
        FetchFulfilled(outcome.value);
      } else {
        FetchRejected(outcome.error);
      }
    }
  }
}
