/**
 * The dashboard's payout table: articles grouped by author, a rate per author taken
 * from the saved rate table, one payout per author and the totals, and the rate edit
 * that rewrites one author's rows and the saved table.
 *
 * The saved table lives in the browser's local storage under "authorPayoutRates"; here
 * it is a map passed in and handed back.
 */
module Payout {
  import opened Wrappers
  import opened JsText
  import opened JsObjects
  import opened Articles

  /** The rate of an author with no truthy entry in the saved table. */
  const DefaultRate: int := 20

  /** The group of the articles whose author is missing or empty. */
  const UnknownAuthor: string := "Unknown"

  /**
   * The names every plain JavaScript object inherits from `Object.prototype`:
   * `acc[name]` is already truthy on an empty `{}` for each of them.
   */
  const PrototypeNames: set<string> := {
    "constructor", "hasOwnProperty", "isPrototypeOf", "propertyIsEnumerable",
    "toLocaleString", "toString", "valueOf", "__proto__",
    "__defineGetter__", "__defineSetter__", "__lookupGetter__", "__lookupSetter__"
  }

  /** One line of the payout table. */
  datatype PayoutRow = PayoutRow(author: string, articlesCount: nat, payoutRate: int, payout: int)

  // ---------------------------------------------------------------- grouping keys and rates

  /** `article.author || "Unknown"`. */
  function AuthorKey(author: Option<string>): string {
    if Present(author) then author.value else UnknownAuthor
  }

  function AuthorKeys(articles: seq<Article>): (ks: seq<string>)
    ensures |ks| == |articles|
    ensures forall i :: 0 <= i < |articles| ==> ks[i] == AuthorKey(articles[i].author)
  {
    seq(|articles|, i requires 0 <= i < |articles| => AuthorKey(articles[i].author))
  }

  /** `savedRates[author] || 20`: a missing entry and a stored 0 (falsy) both read as the default. */
  function RateFor(saved: map<string, int>, author: string): int {
    if author in saved && saved[author] != 0 then saved[author] else DefaultRate
  }

  /** The keys of `ks` outside `hidden`, each once, in the order of their first occurrence. */
  function Firsts(ks: seq<string>, hidden: set<string>): seq<string> {
    if ks == [] then []
    else
      var prev := Firsts(ks[..|ks| - 1], hidden);
      var k := ks[|ks| - 1];
      if k in hidden || k in prev then prev else prev + [k]
  }

  /** Number of occurrences of `k` in `ks`. */
  function CountOf(ks: seq<string>, k: string): nat {
    if ks == [] then 0 else CountOf(ks[..|ks| - 1], k) + (if ks[|ks| - 1] == k then 1 else 0)
  }

  /** Number of positions of `ks` whose key is in `hidden`. */
  function HiddenCount(ks: seq<string>, hidden: set<string>): nat {
    if ks == [] then 0 else HiddenCount(ks[..|ks| - 1], hidden) + (if ks[|ks| - 1] in hidden then 1 else 0)
  }

  /** Index of the first occurrence of `k` in `ks`, or `|ks|` when there is none. */
  function FirstIndex(ks: seq<string>, k: string): nat {
    if ks == [] then 0 else if ks[0] == k then 0 else 1 + FirstIndex(ks[1..], k)
  }

  /** The row of author `k` once every key of `ks` has been counted. */
  function RowFor(ks: seq<string>, saved: map<string, int>, k: string): PayoutRow {
    var n := CountOf(ks, k);
    var rate := RateFor(saved, k);
    PayoutRow(k, n, rate, n * rate)
  }

  function RowsFor(keys: seq<string>, ks: seq<string>, saved: map<string, int>): (rows: seq<PayoutRow>)
    ensures |rows| == |keys|
    ensures forall j :: 0 <= j < |keys| ==> rows[j] == RowFor(ks, saved, keys[j])
  {
    if keys == [] then [] else [RowFor(ks, saved, keys[0])] + RowsFor(keys[1..], ks, saved)
  }

  // ---------------------------------------------------------------- the grouped table

  /**
   * The table the grouping yields when a lookup on the accumulator already finds the
   * keys in `hidden` before any own entry exists: one row per other key, listed in
   * `Object.values` order.
   */
  function AggregateWith(articles: seq<Article>, saved: map<string, int>, hidden: set<string>): seq<PayoutRow> {
    var ks := AuthorKeys(articles);
    RowsFor(OwnKeysOrder(Firsts(ks, hidden)), ks, saved)
  }

  /** The grouping as written, on an accumulator that inherits `Object.prototype`. */
  function AggregateAsWritten(articles: seq<Article>, saved: map<string, int>): seq<PayoutRow> {
    AggregateWith(articles, saved, PrototypeNames)
  }

  /** The grouping on an accumulator with own keys only (a prototype-less object or a Map). */
  function Aggregate(articles: seq<Article>, saved: map<string, int>): seq<PayoutRow> {
    AggregateWith(articles, saved, {})
  }

  function SumCounts(rows: seq<PayoutRow>): int {
    if rows == [] then 0 else rows[0].articlesCount + SumCounts(rows[1..])
  }

  /** `rows.reduce((sum, item) => sum + item.payout, 0)`. */
  function SumPayout(rows: seq<PayoutRow>): int {
    if rows == [] then 0 else rows[0].payout + SumPayout(rows[1..])
  }

  predicate PayoutsConsistent(rows: seq<PayoutRow>) {
    forall i :: 0 <= i < |rows| ==> rows[i].payout == rows[i].articlesCount * rows[i].payoutRate
  }

  predicate DistinctAuthors(rows: seq<PayoutRow>) {
    forall i, j :: 0 <= i < j < |rows| ==> rows[i].author != rows[j].author
  }

  /**
   * The `reduce` callback for one article whose group key is `author`: a lookup that
   * finds nothing creates the entry with count 0 and the author's rate (remembering the
   * key's creation in `order`); then, when the lookup finds an own entry, its count goes
   * up by one and its payout is recomputed. An inherited member (a key in `inherited`)
   * creates no own entry, and the own entries are left as they were.
   */
  method CountArticle(acc: map<string, PayoutRow>, order: seq<string>, author: string,
                      saved: map<string, int>, inherited: set<string>)
    returns (next: map<string, PayoutRow>, nextOrder: seq<string>)
    ensures nextOrder == if author in acc || author in inherited then order else order + [author]
    ensures forall k :: k in next <==> k in acc || (k == author && author !in inherited)
    ensures forall k :: k in next && k != author ==> next[k] == acc[k]
    ensures author in acc ==> next[author] == acc[author].(articlesCount := acc[author].articlesCount + 1,
      payout := (acc[author].articlesCount + 1) * acc[author].payoutRate)
    ensures author !in acc && author !in inherited ==>
      next[author] == PayoutRow(author, 1, RateFor(saved, author), RateFor(saved, author))
  {
    next, nextOrder := acc, order;
    if !(author in next || author in inherited) {
      next := next[author := PayoutRow(author, 0, RateFor(saved, author), 0)];
      nextOrder := nextOrder + [author];
    }
    if author in next {
      var row := next[author];
      var n := row.articlesCount + 1;
      next := next[author := row.(articlesCount := n, payout := n * row.payoutRate)];
    }
  }

  /**
   * What the accumulator holds once the keys `seen` have been counted: an own entry for
   * each key outside `inherited`, created in `order`, holding that key's row so far.
   */
  ghost predicate Grouped(acc: map<string, PayoutRow>, order: seq<string>, seen: seq<string>,
                          saved: map<string, int>, inherited: set<string>) {
    order == Firsts(seen, inherited)
    && (forall k :: k in acc <==> k in order)
    && forall k :: k in acc ==> acc[k] == RowFor(seen, saved, k)
  }

  /** Counting one more article keeps the accumulator `Grouped`. */
  lemma CountArticleStep(acc: map<string, PayoutRow>, order: seq<string>, seen: seq<string>, author: string,
                         saved: map<string, int>, inherited: set<string>,
                         next: map<string, PayoutRow>, nextOrder: seq<string>)
    requires Grouped(acc, order, seen, saved, inherited)
    requires nextOrder == if author in acc || author in inherited then order else order + [author]
    requires forall k :: k in next <==> k in acc || (k == author && author !in inherited)
    requires forall k :: k in next && k != author ==> next[k] == acc[k]
    requires author in acc ==> next[author] == acc[author].(articlesCount := acc[author].articlesCount + 1,
      payout := (acc[author].articlesCount + 1) * acc[author].payoutRate)
    requires author !in acc && author !in inherited ==>
      next[author] == PayoutRow(author, 1, RateFor(saved, author), RateFor(saved, author))
    ensures Grouped(next, nextOrder, seen + [author], saved, inherited)
  {
    FirstsSnoc(seen, author, inherited);
    if author !in acc && author !in inherited {
      FirstsMembers(seen, inherited);
      CountOfAbsent(seen, author);
    }
    forall k | k in next ensures next[k] == RowFor(seen + [author], saved, k) {
      CountOfSnoc(seen, author, k);
    }
  }

  /**
   * The `reduce` over the articles: `acc` is the accumulator object, `order` the order in
   * which its own keys were created. `inherited` holds the keys `!acc[author]` already
   * finds on an empty accumulator; an article with such a key creates no own entry and
   * its increment lands on the inherited member, so `Object.values` never lists it.
   */
  method GroupByAuthor(articles: seq<Article>, saved: map<string, int>, inherited: set<string>)
    returns (rows: seq<PayoutRow>)
    ensures rows == AggregateWith(articles, saved, inherited)
  {
    ghost var ks := AuthorKeys(articles);
    var acc: map<string, PayoutRow> := map[];
    var order: seq<string> := [];
    var i := 0;
    while i < |articles|
      invariant 0 <= i <= |articles|
      invariant Grouped(acc, order, ks[..i], saved, inherited)
    {
      var author := AuthorKey(articles[i].author);
      var next, nextOrder := CountArticle(acc, order, author, saved, inherited);
      CountArticleStep(acc, order, ks[..i], author, saved, inherited, next, nextOrder);
      KeysSnoc(articles, i);
      acc, order := next, nextOrder;
      i := i + 1;
    }
    GroupedValues(acc, order, articles, saved, inherited);
    rows := Values(acc, OwnKeysOrder(order));
  }

  lemma KeysSnoc(articles: seq<Article>, i: nat)
    requires i < |articles|
    ensures AuthorKeys(articles)[..i + 1] == AuthorKeys(articles)[..i] + [AuthorKey(articles[i].author)]
  {
  }

  /** Once every article is counted, `Object.values` of the accumulator is the grouped table. */
  lemma GroupedValues(acc: map<string, PayoutRow>, order: seq<string>, articles: seq<Article>,
                      saved: map<string, int>, inherited: set<string>)
    requires Grouped(acc, order, AuthorKeys(articles)[..|articles|], saved, inherited)
    ensures forall j :: 0 <= j < |OwnKeysOrder(order)| ==> OwnKeysOrder(order)[j] in acc
    ensures Values(acc, OwnKeysOrder(order)) == AggregateWith(articles, saved, inherited)
  {
    var ks := AuthorKeys(articles);
    assert ks[..|articles|] == ks;
    ValuesAreRows(acc, order, OwnKeysOrder(order), ks, saved);
  }

  /** `Object.values(acc)` when `keys` lists the own keys of `acc` in enumeration order. */
  function Values(acc: map<string, PayoutRow>, keys: seq<string>): (vs: seq<PayoutRow>)
    requires forall j :: 0 <= j < |keys| ==> keys[j] in acc
    ensures |vs| == |keys| && forall j :: 0 <= j < |keys| ==> vs[j] == acc[keys[j]]
  {
    seq(|keys|, j requires 0 <= j < |keys| => acc[keys[j]])
  }

  lemma ValuesAreRows(acc: map<string, PayoutRow>, order: seq<string>, keys: seq<string>, ks: seq<string>, saved: map<string, int>)
    requires forall k :: k in acc <==> k in order
    requires forall k :: k in acc ==> acc[k] == RowFor(ks, saved, k)
    requires multiset(keys) == multiset(order)
    ensures forall j :: 0 <= j < |keys| ==> keys[j] in acc
    ensures (forall j :: 0 <= j < |keys| ==> keys[j] in acc) ==> Values(acc, keys) == RowsFor(keys, ks, saved)
  {
    assert forall j :: 0 <= j < |keys| ==> keys[j] in multiset(order);
  }

  lemma FirstsSnoc(ks: seq<string>, x: string, hidden: set<string>)
    ensures Firsts(ks + [x], hidden)
      == if x in hidden || x in Firsts(ks, hidden) then Firsts(ks, hidden) else Firsts(ks, hidden) + [x]
  {
    assert (ks + [x])[..|ks|] == ks;
  }

  lemma CountOfSnoc(ks: seq<string>, x: string, k: string)
    ensures CountOf(ks + [x], k) == CountOf(ks, k) + (if x == k then 1 else 0)
  {
    assert (ks + [x])[..|ks|] == ks;
  }

  // ---------------------------------------------------------------- facts about the keys

  lemma {:induction false} FirstsMembers(ks: seq<string>, hidden: set<string>)
    ensures Distinct(Firsts(ks, hidden))
    ensures forall k :: k in Firsts(ks, hidden) <==> k in ks && k !in hidden
  {
    if ks != [] {
      var init := ks[..|ks| - 1];
      FirstsMembers(init, hidden);
      assert ks == init + [ks[|ks| - 1]];
    }
  }

  lemma {:induction false} CountOfAbsent(ks: seq<string>, k: string)
    requires k !in ks
    ensures CountOf(ks, k) == 0
  {
    if ks != [] {
      CountOfAbsent(ks[..|ks| - 1], k);
    }
  }

  lemma {:induction false} CountOfPresent(ks: seq<string>, k: string)
    requires k in ks
    ensures CountOf(ks, k) >= 1
  {
    var init := ks[..|ks| - 1];
    if ks[|ks| - 1] != k {
      assert ks == init + [ks[|ks| - 1]];
      CountOfPresent(init, k);
    }
  }

  lemma {:induction false} HiddenCountEmpty(ks: seq<string>)
    ensures HiddenCount(ks, {}) == 0
  {
    if ks != [] {
      HiddenCountEmpty(ks[..|ks| - 1]);
    }
  }

  function SumCountOf(keys: seq<string>, ks: seq<string>): nat {
    if keys == [] then 0 else CountOf(ks, keys[0]) + SumCountOf(keys[1..], ks)
  }

  lemma {:induction false} SumCountsRowsFor(keys: seq<string>, ks: seq<string>, saved: map<string, int>)
    ensures SumCounts(RowsFor(keys, ks, saved)) == SumCountOf(keys, ks)
  {
    if keys != [] {
      SumCountsRowsFor(keys[1..], ks, saved);
      assert RowsFor(keys, ks, saved)[1..] == RowsFor(keys[1..], ks, saved);
    }
  }

  lemma {:induction false} SumCountOfAppend(keys: seq<string>, k: string, ks: seq<string>)
    ensures SumCountOf(keys + [k], ks) == SumCountOf(keys, ks) + CountOf(ks, k)
  {
    if keys != [] {
      assert (keys + [k])[1..] == keys[1..] + [k];
      SumCountOfAppend(keys[1..], k, ks);
    }
  }

  /** Counting one more key `k` adds one for every time `k` is listed. */
  lemma {:induction false} SumCountOfSnoc(keys: seq<string>, ks: seq<string>, k: string)
    ensures SumCountOf(keys, ks + [k]) == SumCountOf(keys, ks) + multiset(keys)[k]
  {
    if keys != [] {
      SumCountOfSnoc(keys[1..], ks, k);
      assert (ks + [k])[..|ks + [k]| - 1] == ks;
      assert keys == [keys[0]] + keys[1..];
    }
  }

  lemma {:induction false} SumCountOfRemove(keys: seq<string>, j: nat, ks: seq<string>)
    requires j < |keys|
    ensures SumCountOf(keys, ks) == CountOf(ks, keys[j]) + SumCountOf(keys[..j] + keys[j + 1..], ks)
  {
    if j == 0 {
      assert keys[..0] + keys[1..] == keys[1..];
    } else {
      SumCountOfRemove(keys[1..], j - 1, ks);
      var rest := keys[1..][..j - 1] + keys[1..][j..];
      assert keys[..j] + keys[j + 1..] == [keys[0]] + rest;
      assert ([keys[0]] + rest)[1..] == rest;
    }
  }

  /** Taking the first element out of `a` and a copy of it out of `b` leaves two permutations. */
  lemma PermutationTail(a: seq<string>, b: seq<string>, j: nat)
    requires multiset(a) == multiset(b) && a != [] && j < |b| && b[j] == a[0]
    ensures multiset(a[1..]) == multiset(b[..j] + b[j + 1..])
  {
    assert a == [a[0]] + a[1..];
    assert b == b[..j] + [b[j]] + b[j + 1..];
    assert multiset(a) == multiset{a[0]} + multiset(a[1..]);
    assert multiset(b) == multiset(b[..j]) + multiset{b[j]} + multiset(b[j + 1..]);
    assert multiset(b[..j] + b[j + 1..]) == multiset(b[..j]) + multiset(b[j + 1..]);
    assert multiset(a[1..]) == multiset(a) - multiset{a[0]};
    assert multiset(b[..j] + b[j + 1..]) == multiset(b) - multiset{b[j]};
  }

  /** The sum of the counts does not depend on the order the keys are listed in. */
  lemma {:induction false} SumCountOfPermutation(a: seq<string>, b: seq<string>, ks: seq<string>)
    requires multiset(a) == multiset(b)
    ensures SumCountOf(a, ks) == SumCountOf(b, ks)
    decreases |a|
  {
    if a == [] {
      assert |b| == |multiset(b)| == 0;
    } else {
      assert a[0] in multiset(b);
      var j :| 0 <= j < |b| && b[j] == a[0];
      PermutationTail(a, b, j);
      SumCountOfPermutation(a[1..], b[..j] + b[j + 1..], ks);
      SumCountOfRemove(b, j, ks);
    }
  }

  /** Every position of `ks` is counted once, except those whose key is hidden. */
  lemma {:induction false} SumCountOfFirsts(ks: seq<string>, hidden: set<string>)
    ensures SumCountOf(Firsts(ks, hidden), ks) == |ks| - HiddenCount(ks, hidden)
  {
    if ks != [] {
      var init := ks[..|ks| - 1];
      var k := ks[|ks| - 1];
      var prev := Firsts(init, hidden);
      assert ks == init + [k];
      SumCountOfFirsts(init, hidden);
      FirstsMembers(init, hidden);
      DistinctMultiplicity(prev);
      SumCountOfSnoc(prev, init, k);
      if k in hidden || k in prev {
        assert k in hidden ==> k !in prev;
        assert multiset(prev)[k] == (if k in prev then 1 else 0);
      } else {
        assert multiset(prev)[k] == 0;
        SumCountOfAppend(prev, k, ks);
        assert k !in init;
        CountOfAbsent(init, k);
      }
    }
  }

  // ---------------------------------------------------------------- what the table promises

  /**
   * The counts of the table add up to the number of articles, less the articles whose
   * author key is hidden.
   */
  lemma SumCountsAggregateWith(articles: seq<Article>, saved: map<string, int>, hidden: set<string>)
    ensures SumCounts(AggregateWith(articles, saved, hidden)) == |articles| - HiddenCount(AuthorKeys(articles), hidden)
  {
    var ks := AuthorKeys(articles);
    var firsts := Firsts(ks, hidden);
    SumCountsRowsFor(OwnKeysOrder(firsts), ks, saved);
    SumCountOfPermutation(OwnKeysOrder(firsts), firsts, ks);
    SumCountOfFirsts(ks, hidden);
  }

  /** Counts are conserved: the rows' `articlesCount` values add up to `articles.length`. */
  lemma AggregateConservesCount(articles: seq<Article>, saved: map<string, int>)
    ensures SumCounts(Aggregate(articles, saved)) == |articles|
  {
    SumCountsAggregateWith(articles, saved, {});
    HiddenCountEmpty(AuthorKeys(articles));
  }

  function Authors(rows: seq<PayoutRow>): (r: seq<string>)
    ensures |r| == |rows| && forall j :: 0 <= j < |rows| ==> r[j] == rows[j].author
  {
    seq(|rows|, j requires 0 <= j < |rows| => rows[j].author)
  }

  lemma AuthorsOfRowsFor(keys: seq<string>, ks: seq<string>, saved: map<string, int>)
    ensures Authors(RowsFor(keys, ks, saved)) == keys
  {
  }

  /** The keys the table lists are exactly the author keys of the articles, each once. */
  lemma AggregateKeys(articles: seq<Article>)
    ensures Distinct(OwnKeysOrder(Firsts(AuthorKeys(articles), {})))
    ensures forall k :: k in OwnKeysOrder(Firsts(AuthorKeys(articles), {})) <==> k in AuthorKeys(articles)
  {
    var firsts := Firsts(AuthorKeys(articles), {});
    FirstsMembers(AuthorKeys(articles), {});
    DistinctPermutation(firsts, OwnKeysOrder(firsts));
    SameMembers(firsts, OwnKeysOrder(firsts));
  }

  /** One row per distinct author key: no author twice, and every article's key has a row. */
  lemma AggregateAuthors(articles: seq<Article>, saved: map<string, int>)
    ensures Distinct(Authors(Aggregate(articles, saved)))
    ensures forall k :: k in Authors(Aggregate(articles, saved)) <==> k in AuthorKeys(articles)
  {
    var ks := AuthorKeys(articles);
    AggregateKeys(articles);
    AuthorsOfRowsFor(OwnKeysOrder(Firsts(ks, {})), ks, saved);
  }

  /** Rows built for keys that all occur in `ks`: consistent payouts, counts of at least one, saved rates. */
  lemma RowsForFacts(keys: seq<string>, ks: seq<string>, saved: map<string, int>)
    requires forall k :: k in keys ==> k in ks
    ensures PayoutsConsistent(RowsFor(keys, ks, saved))
    ensures forall j :: 0 <= j < |keys| ==>
      RowsFor(keys, ks, saved)[j].articlesCount == CountOf(ks, RowsFor(keys, ks, saved)[j].author) >= 1
      && RowsFor(keys, ks, saved)[j].payoutRate == RateFor(saved, RowsFor(keys, ks, saved)[j].author)
  {
    forall j | 0 <= j < |keys| ensures CountOf(ks, keys[j]) >= 1 {
      assert keys[j] in keys;
      CountOfPresent(ks, keys[j]);
    }
  }

  /**
   * Each row holds its author's number of articles (at least one), the saved or default
   * rate, and the payout `articlesCount * payoutRate`.
   */
  lemma AggregateRows(articles: seq<Article>, saved: map<string, int>)
    ensures PayoutsConsistent(Aggregate(articles, saved))
    ensures forall j :: 0 <= j < |Aggregate(articles, saved)| ==>
      Aggregate(articles, saved)[j].articlesCount == CountOf(AuthorKeys(articles), Aggregate(articles, saved)[j].author) >= 1
      && Aggregate(articles, saved)[j].payoutRate == RateFor(saved, Aggregate(articles, saved)[j].author)
  {
    AggregateKeys(articles);
    RowsForFacts(OwnKeysOrder(Firsts(AuthorKeys(articles), {})), AuthorKeys(articles), saved);
  }

  /** Each payout is count × rate, the totals agree with the rows, and each author has one row. */
  predicate TableValid(data: seq<PayoutRow>, totalArticles: int, totalPayout: int) {
    PayoutsConsistent(data) && DistinctAuthors(data)
    && totalPayout == SumPayout(data) && totalArticles == SumCounts(data)
  }

  /** The grouped table meets the dashboard's invariant, with the article count as its total. */
  lemma AggregateValid(articles: seq<Article>, saved: map<string, int>)
    ensures TableValid(Aggregate(articles, saved), |articles|, SumPayout(Aggregate(articles, saved)))
  {
    AggregateRows(articles, saved);
    AggregateConservesCount(articles, saved);
    AggregateKeys(articles);
    var ks := AuthorKeys(articles);
    AuthorsOfRowsFor(OwnKeysOrder(Firsts(ks, {})), ks, saved);
    var rows := Aggregate(articles, saved);
    forall i, j | 0 <= i < j < |rows| ensures rows[i].author != rows[j].author {
      assert Authors(rows)[i] != Authors(rows)[j];
    }
  }

  lemma {:induction false} FirstIndexSnoc(ks: seq<string>, x: string, k: string)
    ensures k in ks ==> FirstIndex(ks + [x], k) == FirstIndex(ks, k) < |ks|
    ensures k !in ks && k == x ==> FirstIndex(ks + [x], k) == |ks|
  {
    if ks != [] {
      assert (ks + [x])[1..] == ks[1..] + [x];
      FirstIndexSnoc(ks[1..], x, k);
    }
  }

  /** The keys are listed in the order in which they first occur. */
  lemma {:induction false} FirstsInOrder(ks: seq<string>, hidden: set<string>)
    ensures forall i, j :: 0 <= i < j < |Firsts(ks, hidden)| ==>
      FirstIndex(ks, Firsts(ks, hidden)[i]) < FirstIndex(ks, Firsts(ks, hidden)[j])
  {
    if ks != [] {
      var init := ks[..|ks| - 1];
      var k := ks[|ks| - 1];
      var prev := Firsts(init, hidden);
      assert ks == init + [k];
      FirstsInOrder(init, hidden);
      FirstsMembers(init, hidden);
      var f := Firsts(ks, hidden);
      forall i, j | 0 <= i < j < |f| ensures FirstIndex(ks, f[i]) < FirstIndex(ks, f[j]) {
        FirstIndexSnoc(init, k, f[i]);
        FirstIndexSnoc(init, k, f[j]);
      }
    }
  }

  /**
   * Row order is the order of `Object.values`: authors that are array indices first, in
   * ascending numeric order, then every other author in order of first appearance.
   */
  lemma AggregateOrder(articles: seq<Article>, saved: map<string, int>)
    ensures forall i, j :: 0 <= i < j < |Aggregate(articles, saved)| && IsArrayIndex(Aggregate(articles, saved)[j].author) ==>
      IsArrayIndex(Aggregate(articles, saved)[i].author)
      && IndexValue(Aggregate(articles, saved)[i].author) <= IndexValue(Aggregate(articles, saved)[j].author)
    ensures forall i, j :: 0 <= i < j < |Aggregate(articles, saved)| && !IsArrayIndex(Aggregate(articles, saved)[i].author) ==>
      !IsArrayIndex(Aggregate(articles, saved)[j].author)
      && FirstIndex(AuthorKeys(articles), Aggregate(articles, saved)[i].author)
         < FirstIndex(AuthorKeys(articles), Aggregate(articles, saved)[j].author)
  {
    var ks := AuthorKeys(articles);
    var firsts := Firsts(ks, {});
    FirstsInOrder(ks, {});
    OwnKeysOrderShape(firsts, k => FirstIndex(ks, k), OwnKeysOrder(firsts));
  }

  /** With no numeric-looking author, rows follow the first appearance of each author exactly. */
  lemma AggregateInFirstAppearanceOrder(articles: seq<Article>, saved: map<string, int>)
    requires forall i :: 0 <= i < |articles| ==> !IsArrayIndex(AuthorKey(articles[i].author))
    ensures |Aggregate(articles, saved)| == |Firsts(AuthorKeys(articles), {})|
    ensures forall j :: 0 <= j < |Aggregate(articles, saved)| ==>
      Aggregate(articles, saved)[j].author == Firsts(AuthorKeys(articles), {})[j]
  {
    var ks := AuthorKeys(articles);
    var firsts := Firsts(ks, {});
    FirstsMembers(ks, {});
    forall i | 0 <= i < |firsts| ensures !IsArrayIndex(firsts[i]) {
      assert firsts[i] in ks;
    }
    OwnKeysOrderWithoutIndices(firsts);
  }

  /**
   * The worked example: two articles by author A, then one by author B, with saved rates
   * A: 10 and B: 5, give the rows (A, 2, 10, 20) and (B, 1, 5, 5) and a total of 25.
   */
  lemma AggregateExample(a: Article, b: Article, saved: map<string, int>)
    requires Present(a.author) && Present(b.author) && a.author != b.author
    requires !IsArrayIndex(a.author.value) && !IsArrayIndex(b.author.value)
    requires a.author.value in saved && saved[a.author.value] == 10
    requires b.author.value in saved && saved[b.author.value] == 5
    ensures Aggregate([a, a, b], saved)
      == [PayoutRow(a.author.value, 2, 10, 20), PayoutRow(b.author.value, 1, 5, 5)]
    ensures SumPayout(Aggregate([a, a, b], saved)) == 25
  {
    var x, y := a.author.value, b.author.value;
    assert AuthorKeys([a, a, b]) == [x, x, y];
    ExampleKeys(x, y);
    ExampleCounts(x, y);
    OwnKeysOrderWithoutIndices([x, y]);
    ExampleRows(x, y, saved);
  }

  lemma ExampleKeys(x: string, y: string)
    requires x != y
    ensures Firsts([x, x, y], {}) == [x, y]
  {
    assert [x][..0] == [];
    assert [x, x][..1] == [x];
    assert [x, x, y][..2] == [x, x];
    assert Firsts([x], {}) == [x];
    assert Firsts([x, x], {}) == [x];
  }

  lemma ExampleCounts(x: string, y: string)
    requires x != y
    ensures CountOf([x, x, y], x) == 2 && CountOf([x, x, y], y) == 1
  {
    assert [x] == [] + [x] && [x, x] == [x] + [x] && [x, x, y] == [x, x] + [y];
    CountOfSnoc([], x, x);
    CountOfSnoc([x], x, x);
    CountOfSnoc([x, x], y, x);
    CountOfSnoc([], x, y);
    CountOfSnoc([x], x, y);
    CountOfSnoc([x, x], y, y);
  }

  lemma ExampleRows(x: string, y: string, saved: map<string, int>)
    requires CountOf([x, x, y], x) == 2 && CountOf([x, x, y], y) == 1
    requires x in saved && saved[x] == 10 && y in saved && saved[y] == 5
    ensures RowsFor([x, y], [x, x, y], saved) == [PayoutRow(x, 2, 10, 20), PayoutRow(y, 1, 5, 5)]
    ensures SumPayout(RowsFor([x, y], [x, x, y], saved)) == 25
  {
    var rows := RowsFor([x, y], [x, x, y], saved);
    assert rows[0] == PayoutRow(x, 2, 10, 20);
    assert rows[1] == PayoutRow(y, 1, 5, 5);
    assert rows[1..][1..] == [];
    assert SumPayout(rows[1..]) == 5 + SumPayout(rows[1..][1..]);
  }

  // ---------------------------------------------------------------- the finding

  /**
   * As written, an author named like an inherited member of `Object.prototype` never gets
   * a row: a single article by "constructor" yields an empty table while the total
   * article count is 1.
   */
  lemma PrototypeAuthorDropped(saved: map<string, int>)
    ensures var a := Article("", "", "", None, "", Some("constructor"), Source(""));
            AggregateAsWritten([a], saved) == [] && SumCounts(AggregateAsWritten([a], saved)) == 0
  {
    var a := Article("", "", "", None, "", Some("constructor"), Source(""));
    var ks := AuthorKeys([a]);
    assert ks == ["constructor"];
    assert ks[..0] == [];
    assert Firsts(ks, PrototypeNames) == [];
  }

  /** As written, counts are conserved exactly when no article's author key is a prototype name. */
  lemma AsWrittenConservesCountIff(articles: seq<Article>, saved: map<string, int>)
    ensures SumCounts(AggregateAsWritten(articles, saved)) == |articles|
      <==> forall i :: 0 <= i < |articles| ==> AuthorKey(articles[i].author) !in PrototypeNames
  {
    var ks := AuthorKeys(articles);
    SumCountsAggregateWith(articles, saved, PrototypeNames);
    HiddenCountZero(ks, PrototypeNames);
  }

  lemma {:induction false} HiddenCountZero(ks: seq<string>, hidden: set<string>)
    ensures HiddenCount(ks, hidden) == 0 <==> forall i :: 0 <= i < |ks| ==> ks[i] !in hidden
  {
    if ks != [] {
      var init := ks[..|ks| - 1];
      HiddenCountZero(init, hidden);
      if HiddenCount(ks, hidden) == 0 {
        forall i | 0 <= i < |ks| ensures ks[i] !in hidden {
          if i < |ks| - 1 { assert ks[i] == init[i]; }
        }
      }
    }
  }

  // ---------------------------------------------------------------- the rate edit

  /** `newRate === '' ? 0 : parseInt(newRate) || 0`. */
  function ParseRate(newRate: string): int {
    if newRate == "" then 0
    else match ParseInt(newRate)
      case Some(v) => v
      case None => 0
  }

  /** Every integer typed in its decimal form is read back as itself; text with no leading number reads as 0. */
  lemma ParseRateReadsBack(n: int, junk: string)
    requires junk == [] || !(IsJsWhiteSpace(junk[0]) || IsDigit(junk[0]) || junk[0] == '-' || junk[0] == '+')
    ensures ParseRate(IntToString(n)) == n
    ensures ParseRate(junk) == 0
  {
    ParseIntOfIntToString(n);
    if junk != [] {
      assert TrimStart(junk) == junk;
      assert DecimalRun(junk) == 0;
    }
  }

  /** The `.map` of the rate edit: rows of `author` get the new rate and a recomputed payout. */
  function EditRows(data: seq<PayoutRow>, author: string, rate: int): seq<PayoutRow> {
    seq(|data|, i requires 0 <= i < |data| =>
      if data[i].author == author then data[i].(payoutRate := rate, payout := data[i].articlesCount * rate)
      else data[i])
  }

  /**
   * The edit keeps every row's author and count and the row order, leaves other authors'
   * rows alone, gives the edited author's rows the new rate, and keeps payouts consistent.
   */
  lemma EditRowsFrame(data: seq<PayoutRow>, author: string, rate: int)
    ensures |EditRows(data, author, rate)| == |data|
    ensures forall i :: 0 <= i < |data| ==>
      EditRows(data, author, rate)[i].author == data[i].author
      && EditRows(data, author, rate)[i].articlesCount == data[i].articlesCount
      && (data[i].author != author ==> EditRows(data, author, rate)[i] == data[i])
      && (data[i].author == author ==> EditRows(data, author, rate)[i].payoutRate == rate)
    ensures PayoutsConsistent(data) ==> PayoutsConsistent(EditRows(data, author, rate))
    ensures DistinctAuthors(data) ==> DistinctAuthors(EditRows(data, author, rate))
  {
  }

  lemma {:induction false} EditRowsKeepsCounts(data: seq<PayoutRow>, author: string, rate: int)
    ensures SumCounts(EditRows(data, author, rate)) == SumCounts(data)
  {
    if data != [] {
      EditRowsKeepsCounts(data[1..], author, rate);
      assert EditRows(data, author, rate)[1..] == EditRows(data[1..], author, rate);
    }
  }

  /**
   * The new total differs from the old by exactly the edited row's change in payout
   * (when the author has a row, and only one).
   */
  lemma {:induction false} EditRowsTotal(data: seq<PayoutRow>, author: string, rate: int, k: nat)
    requires k < |data| && data[k].author == author && DistinctAuthors(data)
    ensures SumPayout(EditRows(data, author, rate)) == SumPayout(data) - data[k].payout + data[k].articlesCount * rate
  {
    assert EditRows(data, author, rate)[1..] == EditRows(data[1..], author, rate);
    if k == 0 {
      forall i | 0 <= i < |data[1..]| ensures data[1..][i].author != author {
        assert data[1..][i] == data[i + 1];
      }
      EditRowsAbsent(data[1..], author, rate);
    } else {
      assert DistinctAuthors(data[1..]) by {
        forall i, j | 0 <= i < j < |data[1..]| ensures data[1..][i].author != data[1..][j].author {
          assert data[1..][i] == data[i + 1] && data[1..][j] == data[j + 1];
        }
      }
      assert data[0].author != author by { assert data[0].author != data[k].author; }
      EditRowsTotal(data[1..], author, rate, k - 1);
    }
  }

  lemma EditRowsAbsent(data: seq<PayoutRow>, author: string, rate: int)
    requires forall i :: 0 <= i < |data| ==> data[i].author != author
    ensures EditRows(data, author, rate) == data
  {
  }

  /** Editing the rows built for `keys` equals building them with the new rate saved, unless that rate is a listed author's 0. */
  lemma EditRowsOfRowsFor(keys: seq<string>, ks: seq<string>, saved: map<string, int>, author: string, rate: int)
    requires rate != 0 || author !in keys
    ensures EditRows(RowsFor(keys, ks, saved), author, rate) == RowsFor(keys, ks, saved[author := rate])
  {
    var edited := EditRows(RowsFor(keys, ks, saved), author, rate);
    var reloaded := RowsFor(keys, ks, saved[author := rate]);
    forall j | 0 <= j < |keys| ensures edited[j] == reloaded[j] {
      assert keys[j] == author ==> rate != 0;
    }
  }

  /**
   * Write-through round trip: re-grouping with the updated saved table reproduces the
   * edited table exactly when the new rate is not 0 or the author has no article; a rate
   * of 0 is stored but reloads as the default 20.
   */
  lemma EditThenReload(articles: seq<Article>, saved: map<string, int>, author: string, rate: int)
    ensures Aggregate(articles, saved[author := rate]) == EditRows(Aggregate(articles, saved), author, rate)
      <==> rate != 0 || author !in AuthorKeys(articles)
  {
    var ks := AuthorKeys(articles);
    var order := OwnKeysOrder(Firsts(ks, {}));
    AggregateKeys(articles);
    if rate != 0 || author !in ks {
      EditRowsOfRowsFor(order, ks, saved, author, rate);
    } else {
      ZeroRateReloadsDefault(order, ks, saved, author);
    }
  }

  /** A stored rate of 0 reads back as the default, so the reloaded row differs from the edited one. */
  lemma ZeroRateReloadsDefault(keys: seq<string>, ks: seq<string>, saved: map<string, int>, author: string)
    requires author in keys
    ensures RowsFor(keys, ks, saved[author := 0]) != EditRows(RowsFor(keys, ks, saved), author, 0)
  {
    var j :| 0 <= j < |keys| && keys[j] == author;
    assert RowsFor(keys, ks, saved[author := 0])[j].payoutRate == DefaultRate;
    assert EditRows(RowsFor(keys, ks, saved), author, 0)[j].payoutRate == 0;
  }

  // ---------------------------------------------------------------- the dashboard's state

  /** The dashboard component's payout state: the table and its two totals. */
  class Dashboard {
    var data: seq<PayoutRow>
    var totalArticles: int
    var totalPayout: int

    ghost predicate Valid()
      reads this
    {
      TableValid(data, totalArticles, totalPayout)
    }

    constructor ()
      ensures Valid() && data == [] && totalArticles == 0 && totalPayout == 0
    {
      data := [];
      totalArticles := 0;
      totalPayout := 0;
    }

    /** The effect run when the article list changes; an empty list leaves everything as it was. */
    method ProcessArticles(articles: seq<Article>, saved: map<string, int>)
      requires Valid()
      modifies this
      ensures Valid()
      ensures |articles| == 0 ==> data == old(data) && totalArticles == old(totalArticles) && totalPayout == old(totalPayout)
      ensures |articles| > 0 ==> data == Aggregate(articles, saved) && totalArticles == |articles|
    {
      if |articles| > 0 {
        var processed := GroupByAuthor(articles, saved, {});
        AggregateValid(articles, saved);
        data := processed;
        totalArticles := |articles|;
        totalPayout := SumPayout(processed);
      }
    }

    /**
     * `handlePayoutRateChange`: rewrites the rows of `author`, recomputes the total payout,
     * and writes `author -> rate` through to the saved table, which is returned.
     */
    method HandlePayoutRateChange(author: string, newRate: string, saved: map<string, int>)
      returns (savedAfter: map<string, int>)
      requires Valid()
      modifies this
      ensures Valid()
      ensures data == EditRows(old(data), author, ParseRate(newRate))
      ensures totalArticles == old(totalArticles)
      ensures savedAfter == saved[author := ParseRate(newRate)]
    {
      var rate := ParseRate(newRate);
      var updated := EditRows(data, author, rate);
      EditRowsFrame(data, author, rate);
      EditRowsKeepsCounts(data, author, rate);
      data := updated;
      totalPayout := SumPayout(updated);
      savedAfter := saved[author := rate];
    }
  }
}
