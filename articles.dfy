/** The article record shared by the Guardian slice and the dashboard, and the date-range filter. */
module Articles {
  import opened Wrappers

  datatype Source = Source(name: string)

  /**
   * The internal shape an upstream result is mapped onto: `urlToImage` and `author`
   * are `null` (None) when the upstream field is missing or empty.
   */
  datatype Article = Article(
    title: string,
    description: string,
    url: string,
    urlToImage: Option<string>,
    publishedAt: string,
    author: Option<string>,
    source: Source)

  /** A `{from, to}` filter; each bound is an opaque date string or `null`. */
  datatype DateRange = DateRange(from: Option<string>, to: Option<string>)

  /** The JavaScript truthiness of an optional string: present and not empty. */
  predicate Present(s: Option<string>) {
    s.Some? && s.value != ""
  }
}
