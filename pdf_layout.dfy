/**
 * The strings and positions the dashboard's PDF export hands to the drawing library:
 * the title and totals, the four column headings, and one line of four texts per payout
 * row, each row 10 units below the previous one, with long author names cut short.
 * The drawing itself (fonts, colours, filled rectangles, saving the file) is not modelled.
 */
module PdfLayout {
  import opened JsText
  import opened Payout
  import opened CsvExport

  /** Longest author label drawn in full. */
  const MaxLabel := 20
  /** Characters kept from a longer name before the ellipsis. */
  const KeptChars := 17
  const Ellipsis: string := "..."

  /** Top of the first data row, just below the heading band drawn at 45 with height 10. */
  const FirstRowY := 55
  const RowHeight := 10
  /** Offset of a row's text baseline below the row's top. */
  const BaselineOffset := 7

  /** A call `doc.text(text, x, y)`. */
  datatype TextCall = TextCall(text: string, x: int, y: int)

  /** The author label of a row: the name itself, or its first 17 characters and "...". */
  function AuthorLabel(author: string): (shown: string)
    ensures |shown| <= MaxLabel
    ensures |author| <= MaxLabel ==> shown == author
    ensures |author| > MaxLabel ==> |shown| == MaxLabel && shown[KeptChars..] == Ellipsis
  {
    if |author| > MaxLabel then author[..KeptChars] + Ellipsis else author
  }

  /** A label always starts with the author's first characters, up to 17 of them. */
  lemma AuthorLabelPrefix(author: string)
    ensures var n := if |author| < KeptChars then |author| else KeptChars;
      n <= |AuthorLabel(author)| && AuthorLabel(author)[..n] == author[..n]
  {
  }

  /** Cutting a label again changes nothing. */
  lemma AuthorLabelIdempotent(author: string)
    ensures AuthorLabel(AuthorLabel(author)) == AuthorLabel(author)
  {
  }

  /** Two different names of at most 20 characters never share a label. */
  lemma ShortLabelsDistinct(a: string, b: string)
    requires |a| <= MaxLabel && |b| <= MaxLabel && a != b
    ensures AuthorLabel(a) != AuthorLabel(b)
  {
  }

  /** Two long names that differ only after their 17th character share a label. */
  lemma LongLabelsCollide(a: string, b: string)
    requires |a| > MaxLabel && |b| > MaxLabel && a[..KeptChars] == b[..KeptChars]
    ensures AuthorLabel(a) == AuthorLabel(b)
  {
  }

  /** The top of row `index`: below the header band, and the index can be read back from it. */
  function RowY(index: nat): (y: int)
    ensures y >= FirstRowY
    ensures (y - FirstRowY) % RowHeight == 0 && (y - FirstRowY) / RowHeight == index
  {
    FirstRowY + index * RowHeight
  }

  /** Each row starts exactly where the previous one ends: rows neither overlap nor leave gaps. */
  lemma RowsTile(index: nat)
    ensures RowY(index + 1) == RowY(index) + RowHeight
    ensures RowY(0) == 45 + RowHeight
  {
  }

  /** Rows lie top to bottom in index order. */
  lemma RowsOrdered(i: nat, j: nat)
    requires i < j
    ensures RowY(i) + RowHeight <= RowY(j)
  {
  }

  /** Left edges and widths of the four columns: author, articles, rate, payout. */
  const ColumnLeft: seq<int> := [14, 64, 94, 124]
  const ColumnWidth: seq<int> := [50, 30, 30, 30]

  function HeaderTexts(totalArticles: int, totalPayout: int): seq<TextCall> {
    [ TextCall("Author Payouts", 14, 15),
      TextCall("Total Articles: " + IntToString(totalArticles), 14, 25),
      TextCall("Total Payout: " + Dollars(totalPayout), 14, 35),
      TextCall("Author", 17, 52),
      TextCall("Articles", 67, 52),
      TextCall("Rate", 97, 52),
      TextCall("Payout", 127, 52) ]
  }

  /** The four texts of row `index`: label, count, rate and payout, one per column. */
  function RowTexts(item: PayoutRow, index: nat): seq<TextCall> {
    var y := RowY(index) + BaselineOffset;
    [ TextCall(AuthorLabel(item.author), 17, y),
      TextCall(IntToString(item.articlesCount), 67, y),
      TextCall(Dollars(item.payoutRate), 97, y),
      TextCall(Dollars(item.payout), 127, y) ]
  }

  /**
   * Row `index` shows, column by column, the author label, the count, the rate and the
   * payout of `item`, each text starting inside its cell's border rectangle and sitting
   * on a baseline strictly between the row's top and bottom.
   */
  lemma RowTextsInCells(item: PayoutRow, index: nat)
    ensures |RowTexts(item, index)| == 4
    ensures RowTexts(item, index)[0].text == AuthorLabel(item.author)
    ensures RowTexts(item, index)[1].text == IntToString(item.articlesCount)
    ensures RowTexts(item, index)[2].text == Dollars(item.payoutRate)
    ensures RowTexts(item, index)[3].text == Dollars(item.payout)
    ensures forall j :: 0 <= j < 4 ==>
      ColumnLeft[j] < RowTexts(item, index)[j].x < ColumnLeft[j] + ColumnWidth[j] &&
      RowY(index) < RowTexts(item, index)[j].y < RowY(index) + RowHeight &&
      RowTexts(item, index)[j].y == 55 + 10 * index + 7
  {
  }

  /** The texts of the data rows, one group of four per row, in row order. */
  function RowGroups(data: seq<PayoutRow>): (groups: seq<seq<TextCall>>)
    ensures |groups| == |data|
  {
    seq(|data|, i requires 0 <= i < |data| => RowTexts(data[i], i))
  }

  function Flatten(groups: seq<seq<TextCall>>): seq<TextCall> {
    if groups == [] then [] else groups[0] + Flatten(groups[1..])
  }

  /** Every text the export draws, in drawing order. */
  function PdfTexts(totalArticles: int, totalPayout: int, data: seq<PayoutRow>): seq<TextCall> {
    HeaderTexts(totalArticles, totalPayout) + Flatten(RowGroups(data))
  }

  lemma {:induction false} FlattenFours(groups: seq<seq<TextCall>>)
    requires forall i :: 0 <= i < |groups| ==> |groups[i]| == 4
    ensures |Flatten(groups)| == 4 * |groups|
    ensures forall i :: 0 <= i < |groups| ==> Flatten(groups)[4 * i..4 * i + 4] == groups[i]
  {
    if groups != [] {
      FlattenFours(groups[1..]);
      var rest := Flatten(groups[1..]);
      assert Flatten(groups) == groups[0] + rest;
      forall i | 0 <= i < |groups| ensures Flatten(groups)[4 * i..4 * i + 4] == groups[i] {
        if i > 0 {
          assert Flatten(groups)[4 * i..4 * i + 4] == rest[4 * (i - 1)..4 * (i - 1) + 4];
        }
      }
    }
  }

  lemma PdfRowAt(totalArticles: int, totalPayout: int, data: seq<PayoutRow>, i: nat)
    requires i < |data|
    requires |Flatten(RowGroups(data))| == 4 * |data|
    requires Flatten(RowGroups(data))[4 * i..4 * i + 4] == RowTexts(data[i], i)
    ensures 11 + 4 * i <= |PdfTexts(totalArticles, totalPayout, data)|
    ensures PdfTexts(totalArticles, totalPayout, data)[7 + 4 * i..11 + 4 * i] == RowTexts(data[i], i)
  {
    var header := HeaderTexts(totalArticles, totalPayout);
    assert |header| == 7;
    var body := Flatten(RowGroups(data));
    assert (header + body)[7 + 4 * i..11 + 4 * i] == body[4 * i..4 * i + 4];
  }

  /**
   * The export draws 7 header texts and then exactly four texts per payout row, in
   * row order: texts 7 + 4i to 7 + 4i + 3 are those of row i.
   */
  lemma PdfLayoutShape(totalArticles: int, totalPayout: int, data: seq<PayoutRow>)
    ensures |PdfTexts(totalArticles, totalPayout, data)| == 7 + 4 * |data|
    ensures forall i :: 0 <= i < |data| ==>
      PdfTexts(totalArticles, totalPayout, data)[7 + 4 * i..11 + 4 * i] == RowTexts(data[i], i)
  {
    var groups := RowGroups(data);
    FlattenFours(groups);
    assert |HeaderTexts(totalArticles, totalPayout)| == 7;
    forall i | 0 <= i < |data|
      ensures PdfTexts(totalArticles, totalPayout, data)[7 + 4 * i..11 + 4 * i] == RowTexts(data[i], i)
    {
      assert groups[i] == RowTexts(data[i], i);
      PdfRowAt(totalArticles, totalPayout, data, i);
    }
  }
}
