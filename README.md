# news-pay: a Dafny model of the payout dashboard and its news slices

news-pay is a Next.js news dashboard. It fetches articles from NewsAPI and from The
Guardian into Redux slices. It keeps the signed-in user in a third slice. Its dashboard
page turns the Guardian articles into a per-author payout table, using a rate per author
from a table saved in local storage. The table's rates can be edited, and the table can be
exported as CSV, as a PDF page, or as CSV text for Google Sheets. The sheets API route
builds the same text on the server.

This project models that core in Dafny and proves what each part promises:

- `Payout` (`payout.dfy`) covers the dashboard's grouping `reduce`, `Object.values`, the
  totals, the rate edit with its write-through to the saved table, and the dashboard's
  state as a class.
  - The grouping is a loop method, `GroupByAuthor`. It is proved equal to a specification
    function, `AggregateWith`, which takes the set of names the accumulator inherits.
  - With the names `Object.prototype` provides, that function is the grouping as written
    (`AggregateAsWritten`). Its counts add up to `articles.length` exactly when no author
    is named like one of those members (see Findings).
  - With no inherited names it is the grouping over own keys only (`Aggregate`), the
    corrected form. That form is proved to conserve the article count, to list each author
    once, to compute `count * rate`, and to follow `Object.values` order. The dashboard
    class uses it.
- `CsvExport` (`csv_export.dfy`) covers `exportToCSV`. A reader for the same CSV dialect
  is proved to read every exported row back intact.
- `SheetsExport` (`sheets_export.dfy`) covers the CSV text of the sheets route, which the
  dashboard's `uploadToGoogleSheets` builds identically (`src/app/dashboard/page.js:214-228`).
  It proves the line structure of that text, and the column shift that an unquoted comma
  in an author name causes.
- `PdfLayout` (`pdf_layout.dfy`) covers the texts and positions that `exportToPDF` draws.
- `NewsSlice` (`news_slice.dfy`) is the NewsAPI slice as a class. Its invariant is that
  the shown articles are always the fetched ones under the author search.
  `NewsQuery` (`news_query.dfy`) is the query `fetchNews` builds.
- `GuardianSlice` (`guardian_slice.dfy`) is the Guardian slice as a class, with its
  request URL, its reply checks and its result mapping.
- `UserSlice` (`user_slice.dfy`) is the user slice as a class.
- Supporting modules:
  - `JsText` holds the JavaScript string and number built-ins the code relies on:
    `toLowerCase`, `includes`, `slice`, number-to-string, `parseInt`, `join` and `split`.
  - `JsObjects` holds the enumeration order of `Object.values`.
  - `Articles` and `Wrappers` hold shared data types.

Percent-encoding, date conversion and HTTP requests are function parameters of the model:
- `encode` stands for `encodeURIComponent`;
- `toIso` stands for `new Date(s).toISOString()`, and is None when that throws;
- `fetch` stands for the request together with its decoded reply.

The saved rate table is a `map<string, int>` passed in and returned.

Notes on the code's behaviour, which the model keeps:
- A missing author stays `null` on the article. The "Unknown" group key is applied by the
  dashboard when it groups, not by the Guardian mapping.
- A saved rate of 0 is falsy, so it reads back as the default 20 (`page.js:80`). It is not
  kept.
- Rows are listed in `Object.values` order. Authors that look like array indices
  ("7", "42") come first, in numeric order. Only the other authors keep first-appearance
  order.
- The rate edit uses `parseInt`, which accepts negative numbers. The model does not clamp
  them.
- `totalArticles` is `articles.length`. It equals the sum of the counts only when no author
  is named like an `Object.prototype` member (see Findings).
- `setPage` stores its argument unchecked.

## Model

| member | source | states |
|---|---|---|
| JsText.Take | src/lib/newsSlice.js:34-35 | `slice(0, n)` is a prefix of the text of length min(length, n) |
| JsText.NatToString | src/app/dashboard/page.js:162 | a rendered natural number is a non-empty digit string with no leading zero unless it is "0" |
| JsText.IntToStringSafe | src/app/dashboard/page.js:162 | every character of a rendered integer is a minus sign or a digit, so it can never be a separator or a quote |
| JsText.DigitsValueOfNatToString | src/app/dashboard/page.js:162 | the digits of a rendered number denote that number |
| JsText.TrimStart | src/app/dashboard/page.js:97 | `parseInt`'s white-space skip drops exactly the leading white space (tab, vertical tab, form feed, BOM, every space separator, line terminators): what it drops is all white space and what is left does not start with any |
| JsText.ParseIntSkipsSpace | src/app/dashboard/page.js:97 | leading white space does not change what `parseInt` returns |
| JsText.ParseIntIgnoresTail | src/app/dashboard/page.js:97 | `parseInt` reads the leading integer and ignores what follows it, as long as that does not continue the number ("25px" is 25) |
| JsText.DecimalRun | src/app/dashboard/page.js:97 | the run `parseInt` reads is the longest prefix of digits: all digits, and the next character is not one |
| JsText.ParseIntOfIntToString | src/app/dashboard/page.js:97 | `parseInt` (`ParseInt`, None for NaN) reads back every integer as rendered by `String(n)` |
| JsText.ToLowerKeepsIncludes | src/lib/newsSlice.js:80-88 | lowering both the text and the term (`ToLower`, `toLowerCase` on ASCII letters) keeps every exact occurrence of the term |
| JsText.JoinSnoc | src/app/dashboard/page.js:188 | joining one more part appends the separator and the part |
| JsText.SplitLength | src/lib/guardianSlice.js:28 | `split` on a character yields one piece more than the character's occurrences |
| JsText.OccurrencesJoin | src/app/api/sheets/route.js:22 | a joined text holds the separator once per joint plus the occurrences inside the parts |
| JsText.SplitJoin | src/lib/guardianSlice.js:28 | `split` undoes `join` when no part contains the separator |
| JsObjects.InsertByIndex | src/app/dashboard/page.js:89 | inserting an array-index key into a sorted run keeps it sorted and adds exactly that key |
| JsObjects.SortByIndex | src/app/dashboard/page.js:89 | the index keys come out in ascending numeric order and are a permutation of the input |
| JsObjects.OwnKeysOrder | src/app/dashboard/page.js:89 | `Object.values` lists every own key exactly once (a permutation of the insertion order) |
| JsObjects.OwnKeysOrderShape | src/app/dashboard/page.js:89 | index keys precede all other keys and ascend by value; the other keys keep their insertion ranking |
| JsObjects.OwnKeysOrderWithoutIndices | src/app/dashboard/page.js:89 | with no array-index key, `Object.values` follows insertion order exactly |
| JsObjects.DistinctPermutation | src/app/dashboard/page.js:89 | reordering keys that are all different leaves them all different |
| Payout.CountArticle | src/app/dashboard/page.js:75-86 | one `reduce` step: a new own key is created with count 1 and its saved-or-default rate, an existing one gets count + 1 and payout recomputed, an inherited key creates nothing, and all other entries stay |
| Payout.CountArticleStep | src/app/dashboard/page.js:74-87 | one step keeps the accumulator equal to the rows of the keys seen so far, with own keys created in first-appearance order |
| Payout.GroupByAuthor | src/app/dashboard/page.js:74-89 | the loop's `Object.values` result equals the grouped table `AggregateWith` for the given inherited names, built from the group keys `AuthorKeys` (the author when truthy, "Unknown" otherwise) |
| Payout.GroupedValues | src/app/dashboard/page.js:89 | after the last article, `Object.values` of the accumulator is the grouped table |
| Payout.FirstsMembers | src/app/dashboard/page.js:76-83 | the created keys are all different and are exactly the article keys that are not inherited |
| Payout.FirstsInOrder | src/app/dashboard/page.js:76-83 | keys are created in the order of their first article |
| Payout.SumCountsAggregateWith | src/app/dashboard/page.js:74-89 | the counts add up to the number of articles less those whose key is inherited |
| Payout.AggregateConservesCount | src/app/dashboard/page.js:89-91 | for the own-key accumulator (`Aggregate`, the corrected grouping), the counts add up to `articles.length` |
| Payout.AggregateAuthors | src/app/dashboard/page.js:74-89 | for the own-key accumulator (`Aggregate`): no author has two rows, and an author has a row exactly when some article has that key |
| Payout.AggregateRows | src/app/dashboard/page.js:77-85 | for the own-key accumulator (`Aggregate`): each row's count is its author's number of articles (at least 1), its rate is `RateFor` (the saved rate when present and non-zero, 20 otherwise), and its payout is count × rate |
| Payout.AggregateValid | src/app/dashboard/page.js:89-92 | for the own-key accumulator (`Aggregate`): the table, `articles.length` and the summed payout satisfy the dashboard invariant |
| Payout.AggregateOrder | src/app/dashboard/page.js:89 | for the own-key accumulator (`Aggregate`): rows of index-like authors come first in numeric order; the others follow in order of first appearance |
| Payout.AggregateInFirstAppearanceOrder | src/app/dashboard/page.js:89 | for the own-key accumulator (`Aggregate`): without index-like authors, rows follow the first appearance of each author exactly |
| Payout.AggregateExample | src/app/dashboard/page.js:74-92 | for the own-key accumulator (`Aggregate`): two articles by A (rate 10) and one by B (rate 5) give rows (A, 2, 10, 20), (B, 1, 5, 5) and total 25 |
| Payout.PrototypeAuthorDropped | src/app/dashboard/page.js:76 | as written, one article by "constructor" yields an empty table whose counts sum to 0, not 1 |
| Payout.AsWrittenConservesCountIff | src/app/dashboard/page.js:74-91 | as written (`AggregateAsWritten`), counts are conserved if and only if no author key is an `Object.prototype` member name |
| Payout.ParseRateReadsBack | src/app/dashboard/page.js:97 | the rate parse `ParseRate` (0 for empty text, otherwise `parseInt` with NaN as 0): a typed integer is read as itself; text with no leading sign, digit or white space is read as 0 |
| Payout.EditRowsFrame | src/app/dashboard/page.js:100-109 | the edit `EditRows` keeps order, authors and counts, leaves other authors' rows unchanged, sets the new rate, and keeps payouts consistent and authors distinct |
| Payout.EditRowsKeepsCounts | src/app/dashboard/page.js:100-109 | the edit does not change the total article count |
| Payout.EditRowsTotal | src/app/dashboard/page.js:100-114 | the new total payout is the old one minus the author's old payout plus count × new rate |
| Payout.EditRowsOfRowsFor | src/app/dashboard/page.js:100-118 | editing the rows equals rebuilding them from the table with the new rate saved, unless a listed author's rate is set to 0 |
| Payout.EditThenReload | src/app/dashboard/page.js:96-120 | for the own-key accumulator (`Aggregate`): regrouping with the updated saved table reproduces the edited table if and only if the rate is not 0 or the author has no article |
| Payout.ZeroRateReloadsDefault | src/app/dashboard/page.js:80 | a stored 0 reloads as 20, so regrouping then differs from the edited table |
| Payout.Dashboard.constructor | src/app/dashboard/page.js:42-44 | the empty table with zero totals, which satisfies the invariant |
| Payout.Dashboard.ProcessArticles | src/app/dashboard/page.js:69-94 | for a non-empty list, the table becomes the own-key grouped table `Aggregate` and the totals become `articles.length` and the summed payout; an empty list changes nothing; the invariant is kept |
| Payout.Dashboard.HandlePayoutRateChange | src/app/dashboard/page.js:96-120 | the table becomes the edited table, the article total is unchanged, the invariant (including the recomputed payout total) is kept, and the saved table gains `author -> rate` |
| CsvExport.ReadQuotedEscape | src/app/dashboard/page.js:180 | a body escaped by `Escape` (quotes doubled) followed by its closing quote reads back as the original text |
| CsvExport.ReadFieldEncoded | src/app/dashboard/page.js:180 | every field the export writes, quoted by `QuoteField` or plain, reads back as its value whatever follows it |
| CsvExport.ReadRecordJoined | src/app/dashboard/page.js:188 | a comma-joined record of written fields reads back as its values |
| CsvExport.ReadCsvRendered | src/app/dashboard/page.js:188 | a document whose records are joined by `\r\n` reads back record by record |
| CsvExport.ParseDollarsOf | src/app/dashboard/page.js:182-183 | a `$` amount reads back as its integer |
| CsvExport.DecodeRowValues | src/app/dashboard/page.js:180-183 | the four values of a data row decode back to that row |
| CsvExport.PlainHeader | src/app/dashboard/page.js:173-177 | no header cell contains a comma, a quote or a carriage return |
| CsvExport.HeaderEncodes | src/app/dashboard/page.js:173-177 | the header block reads back as its title, totals, blank row and column names |
| CsvExport.DataRowEncodes | src/app/dashboard/page.js:178-184 | each data cell reads back as the author, the count, the rate and the payout |
| CsvExport.RenderEmptyRow | src/app/dashboard/page.js:176 | the empty spacing row renders the same as a row holding one empty field |
| CsvExport.CsvRoundTrip | src/app/dashboard/page.js:172-188 | reading `payouts.csv` (`CsvContent`: the records `CsvRows`, one per payout row via `CsvDataRows`, each written as a comma-joined line by `Lines`) gives the five header records and then, for every payout row in order, a record that decodes to exactly that row |
| CsvExport.EscapeExample | src/app/dashboard/page.js:180 | a quote inside an author is doubled |
| CsvExport.QuotedAuthorExample | src/app/dashboard/page.js:180 | an author holding a comma and quotes is one field and reads back intact |
| SheetsExport.DataLine | src/app/api/sheets/route.js:14-22 | a data record joins to `author,count,$payout` |
| SheetsExport.DataLineLacks | src/app/api/sheets/route.js:14-18 | a data line holds a line feed only if its author does |
| SheetsExport.HeaderLinesAre | src/app/api/sheets/route.js:8-13 | the header block renders as the title, the two totals, a blank line and `Author,Articles Count,Payout` |
| SheetsExport.HeaderLacksNewline | src/app/api/sheets/route.js:8-13 | no header line holds a line feed |
| SheetsExport.SheetsLinesAre | src/app/api/sheets/route.js:8-22 | the lines of the text are the header lines followed by one line per row |
| SheetsExport.SplitSheetsCsv | src/app/api/sheets/route.js:14-22 | when no author holds a line feed, splitting the text `SheetsCsv` (the header records, then one record per row from `SheetsDataRows`) on line feeds gives exactly the header lines and then the data lines `DataLines`, one `author,count,$payout` line per row in row order |
| SheetsExport.SheetsLineFields | src/app/api/sheets/route.js:15-17 | a data line splits on commas into 3 fields plus one per comma in the author, and into exactly author, count and payout when the author has none |
| SheetsExport.CommaAuthorShiftsColumns | src/app/api/sheets/route.js:15 | the unquoted author "Doe, Jane" makes its line split into 4 fields |
| PdfLayout.AuthorLabel | src/app/dashboard/page.js:161 | a label is at most 20 characters: the name itself when it fits, otherwise 17 characters and "..." |
| PdfLayout.AuthorLabelPrefix | src/app/dashboard/page.js:161 | a label starts with the name's first characters, up to 17 of them |
| PdfLayout.AuthorLabelIdempotent | src/app/dashboard/page.js:161 | shortening a label again changes nothing |
| PdfLayout.ShortLabelsDistinct | src/app/dashboard/page.js:161 | different names of at most 20 characters get different labels |
| PdfLayout.LongLabelsCollide | src/app/dashboard/page.js:161 | long names that agree on their first 17 characters get the same label |
| PdfLayout.RowY | src/app/dashboard/page.js:152 | every row starts at or below 55, on the 10-unit grid, and different rows start at different heights: the index is read back from the top |
| PdfLayout.RowsTile | src/app/dashboard/page.js:136-155 | each row starts where the previous one ends, and the first where the heading band ends |
| PdfLayout.RowsOrdered | src/app/dashboard/page.js:152 | rows lie top to bottom in index order without overlap |
| PdfLayout.RowTextsInCells | src/app/dashboard/page.js:155-164 | a row's four texts are the label, count, rate and payout, each inside its cell and strictly between the row's top and bottom |
| PdfLayout.RowGroups | src/app/dashboard/page.js:151-165 | one group of texts per row |
| PdfLayout.FlattenFours | src/app/dashboard/page.js:151-165 | groups of four texts are drawn as consecutive runs of four |
| PdfLayout.PdfRowAt | src/app/dashboard/page.js:151-165 | row i's run sits after the 7 header texts, at positions 7 + 4i to 10 + 4i |
| PdfLayout.PdfLayoutShape | src/app/dashboard/page.js:127-165 | the export draws 7 header texts and then exactly four texts per row, in row order |
| NewsSlice.FilterFrom | src/lib/newsSlice.js:82-88 | from any start position, the search result lists exactly the matching articles at increasing positions |
| NewsSlice.FilterIsSubsequence | src/lib/newsSlice.js:82-88 | the search result is the order-preserving subsequence of exactly the matching articles |
| NewsSlice.FilterMembers | src/lib/newsSlice.js:82-88 | under the search `Filter` with its predicate `Matches` (the lowered author, title, description or content includes the term), an article is shown if and only if it was fetched and matches |
| NewsSlice.FilterIdempotent | src/lib/newsSlice.js:82-88 | searching the result again for the same term changes nothing |
| NewsSlice.ExactHitShown | src/lib/newsSlice.js:80-88 | an article with a field that contains the typed author name verbatim is always among the shown articles `Visible` |
| NewsSlice.JaneMatches | src/lib/newsSlice.js:80-88 | "jane" matches an author "Jane Doe" and a title "jane's day" regardless of case |
| NewsSlice.NewsState.constructor | src/lib/newsSlice.js:50-65 | the initial state, in which the filters are cleared and nothing is fetched |
| NewsSlice.NewsState.SetCategory | src/lib/newsSlice.js:71-73 | only the category changes |
| NewsSlice.NewsState.SetSearchQuery | src/lib/newsSlice.js:74-76 | only the search text changes |
| NewsSlice.NewsState.SetAuthor | src/lib/newsSlice.js:77-95 | a non-empty author shows the case-insensitive matches and counts them; the empty author shows and counts everything; the fetched set is kept |
| NewsSlice.NewsState.SetDateRange | src/lib/newsSlice.js:96-105 | no range clears both bounds; otherwise an empty or missing bound becomes null |
| NewsSlice.NewsState.SetPage | src/lib/newsSlice.js:106-108 | only the page changes, to the value given |
| NewsSlice.NewsState.ClearFilters | src/lib/newsSlice.js:109-117 | every filter is reset, all fetched articles are shown and counted, and the fetch state is kept |
| NewsSlice.NewsState.FetchPending | src/lib/newsSlice.js:121-124 | loading starts and the error is cleared |
| NewsSlice.NewsState.FetchFulfilled | src/lib/newsSlice.js:125-144 | the payload's articles (none when missing) are stored; an active author search is reapplied and its hits counted, otherwise the payload's total is used |
| NewsSlice.NewsState.FetchRejected | src/lib/newsSlice.js:145-148 | loading ends and the error message is stored |
| NewsQuery.WithDates | src/lib/newsSlice.js:34-35 | adding the dates leaves `q` as it was |
| NewsQuery.BuildQuery | src/lib/newsSlice.js:10-41 | top headlines exactly when there is no search text and no date bound, with country and an applicable category; otherwise the everything query with the dates and `q` made of search text, category and author term |
| NewsQuery.SearchAndDates | src/lib/newsSlice.js:33-35 | the search text and each present date bound are written |
| NewsQuery.EverythingQuery | src/lib/newsSlice.js:33-41 | the everything branch yields the dated base with `q` set to its words joined by spaces, whenever any word applies |
| NewsQuery.AppendWhen | src/lib/newsSlice.js:36-41 | each conditional rewrite of `q` adds its word to the words so far |
| NewsQuery.QStart | src/lib/newsSlice.js:33 | after the search text is written, `q`'s words are the search text or an earlier truthy `q` |
| NewsQuery.QStep | src/lib/newsSlice.js:37-40 | one rewrite of `q` by `AppendToQ` (after a space when `q` is truthy) keeps `q` equal to its words joined by spaces |
| NewsQuery.TermsInOrder | src/lib/newsSlice.js:33-41 | `q`'s words are the search text's, then the category's, then the author's |
| NewsQuery.AuthorOnlyQuery | src/lib/newsSlice.js:39-41 | with only an author, `q` is `author:"<author>"` |
| NewsQuery.AuthorTermLast | src/lib/newsSlice.js:39-41 | the author term comes last, after one space |
| NewsQuery.BaseQueryValues | src/lib/newsSlice.js:10-17 | the base parameters are key, "en", "publishedAt", 20 and the page (1 by default), and any extra parameter overrides them |
| NewsQuery.DatesTruncated | src/lib/newsSlice.js:34-35 | a present bound is sent as at most its first ten characters, and a missing one is not sent |
| GuardianSlice.MapResult | src/lib/guardianSlice.js:51-61 | a mapped article keeps title, URL and date, has a description of at most 200 characters, and its source is "The Guardian" |
| GuardianSlice.MapResultDefaults | src/lib/guardianSlice.js:53-57 | the description is the body text's first 200 characters, or empty without one; image and author are the thumbnail and byline, or null when missing or empty |
| GuardianSlice.GuardianAuthorKey | src/lib/guardianSlice.js:57 | the dashboard groups a result under its byline, and under "Unknown" when there is none |
| GuardianSlice.ValidateOutcome | src/lib/guardianSlice.js:42-63 | under `Validate`, a reply is accepted if and only if the request succeeded, the status is ok and the results are present; then all results are mapped by `MapResults`, one `MapResult` each, in order; otherwise the error names the failed check |
| GuardianSlice.UrlSplits | src/lib/guardianSlice.js:13-35 | for the URL pieces `UrlParts`: when the key, encoded values and days hold no `&`, the URL splits on `&` into exactly its pieces |
| GuardianSlice.BaseUrlJoin | src/lib/guardianSlice.js:13 | the URL template's start is the `&`-join of its first three pieces |
| GuardianSlice.AppendText | src/lib/guardianSlice.js:16-23 | a non-empty text adds its encoded piece to the URL, and an empty one adds nothing |
| GuardianSlice.AppendBound | src/lib/guardianSlice.js:26-35 | a present bound adds its day and an absent one adds nothing; an unconvertible bound fails with "Invalid time value" |
| GuardianSlice.BuildUrl | src/lib/guardianSlice.js:13-35 | the URL is the `&`-join of its pieces, and it fails exactly when a present date bound cannot be converted |
| GuardianSlice.FetchGuardianNews | src/lib/guardianSlice.js:4-68 | fails without a key or with a bad date and makes no request; otherwise it requests the built URL once (page size 30 by default) and returns the validated reply |
| GuardianSlice.GuardianState.constructor | src/lib/guardianSlice.js:71-82 | the initial state |
| GuardianSlice.GuardianState.SetSearchQuery | src/lib/guardianSlice.js:88-90 | only the search text changes |
| GuardianSlice.GuardianState.SetAuthor | src/lib/guardianSlice.js:91-93 | only the author changes |
| GuardianSlice.GuardianState.SetDateRange | src/lib/guardianSlice.js:94-96 | only the date range changes |
| GuardianSlice.GuardianState.ClearFilters | src/lib/guardianSlice.js:97-104 | the three filter fields are reset and nothing else changes |
| GuardianSlice.GuardianState.FetchPending | src/lib/guardianSlice.js:108-111 | loading starts and the error is cleared |
| GuardianSlice.GuardianState.FetchFulfilled | src/lib/guardianSlice.js:112-116 | articles and total are replaced by the payload's, and loading ends |
| GuardianSlice.GuardianState.FetchRejected | src/lib/guardianSlice.js:117-120 | loading ends and the rejection message is stored |
| GuardianSlice.GuardianState.Settle | src/lib/guardianSlice.js:108-120 | settling a validated fetch either stores the mapped articles and total and keeps the error, or records the message and keeps articles and total; every held article stays a mapped Guardian article |
| UserSlice.UserState.constructor | src/lib/userSlice.js:3-7 | uid, email and role all start null |
| UserSlice.UserState.SetUser | src/lib/userSlice.js:13-17 | the three fields become the payload's, and nothing of the previous user remains |
| UserSlice.UserState.ClearUser | src/lib/userSlice.js:18-22 | back to the signed-out state from any state |

## Left out

- Rendering is not modelled: the React components, charts, theme, preview dialog and loading banners.
- The PDF library's drawing is not modelled: fonts, colours, rectangles and `doc.save`.
- Browser downloads (Blob, object URL, link click) in the CSV and sheets exports are not modelled.
- The sheets route's JSON request and response, its `sheetsUrl`, and its error response are not modelled; only `csvContent` is.
- Local storage is not modelled. The saved rate table is a map passed in and returned, and the JSON encoding is not modelled.
- HTTP requests (axios and `fetch`), `encodeURIComponent` and `Date`/`toISOString` are not implemented. They are function parameters of the model.
- The environment's API keys are parameters of the model.
- `console.log`/`console.error` debug output is not modelled.
- Concurrency is not modelled. Two fetches in flight that settle out of order are simply two successive state changes.
- Firebase authentication and the admin role lookup are not part of this model.
- The component that dispatches the NewsAPI slice is not part of this model.
- Article fields other than the four that the NewsAPI search reads are not modelled.
- JsText.ToLower: folds ASCII letters only. Full Unicode case mapping is not modelled.
- JsText.Take: counts characters, not UTF-16 code units.
- PdfLayout.AuthorLabel: counts characters (code points), while `length` and `substring` count UTF-16 code units, so a name with characters outside the Basic Multilingual Plane is shortened at a different place, and may be cut inside a surrogate pair in the source.
- Payout.Dashboard.ProcessArticles: uses the own-key grouping `Aggregate`, the corrected form from Findings. As written, an author named like an `Object.prototype` member (such as "constructor") gets no row while `totalArticles` still counts the article, so the program's own state can break the invariant `totalArticles == SumCounts(data)`. That case is captured only by `Payout.PrototypeAuthorDropped` and `Payout.AsWrittenConservesCountIff`.
- Payout.Dashboard.HandlePayoutRateChange: the saved table is a map of own keys. In the source it is a plain object parsed from JSON, so `savedRates["__proto__"] = rate` creates no entry, and a lookup of a prototype name such as "constructor" yields the inherited member instead of a saved rate. Neither is modelled.
- JsText.ParseIntOfIntToString: integers are unbounded. JavaScript's 53-bit precision and its exponent rendering of numbers from 1e21 up are not modelled.
- NewsQuery.BuildQuery: parameters form a map, so the order in which axios serialises them is not modelled. An extra `page` or `pageSize` parameter is taken to be a string or an integer.
- NewsSlice.NewsState.FetchRejected: `action.error.message` is a parameter, possibly missing.
- NewsSlice.NewsState.FetchFulfilled: `totalResults` from the payload is taken as a number. A missing total (stored as `undefined`) is not modelled.
- GuardianSlice.GuardianState.SetDateRange: takes a range object. A `null` payload, which the source would store as `null`, is not modelled.
- GuardianSlice.GuardianState.FetchFulfilled: `data.response.total` is taken as a number. A missing total is not modelled.
- GuardianSlice.FetchGuardianNews: `pageSize` is taken to be an integer.
- GuardianSlice.FetchGuardianNews: a reply whose body is not JSON is folded into `fetch`'s error.
- GuardianSlice.FetchGuardianNews: `Error` messages are plain strings.

## Findings

| source | as written | input that shows it | evidently intended | confidence | as-written member | corrected member |
|---|---|---|---|---|---|---|
| src/app/dashboard/page.js:74-87 | The accumulator is a plain `{}`, so `!acc[author]` finds members inherited from `Object.prototype`. For such an author no own entry is created, the increment goes to the inherited member, and `Object.values` never lists the author. | One article whose author is "constructor" (or "toString", "__proto__", …) gives an empty table while `totalArticles` is 1 | Every author gets a row and the counts add up to `articles.length`; this needs an accumulator with own keys only (`Object.create(null)` or a `Map`) | not executed | Payout.PrototypeAuthorDropped | Payout.AggregateConservesCount |
