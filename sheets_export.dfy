/**
 * The CSV text prepared for Google Sheets, built the same way by the dashboard's
 * `uploadToGoogleSheets` and by the `POST` handler of the sheets API route: the same
 * header block with three columns, one row per payout row (author unquoted, count,
 * `$` payout), fields joined with `,` and rows with `\n`.
 */
module SheetsExport {
  import opened JsText
  import opened Payout
  import opened CsvExport

  function SheetsHeader(totalArticles: int, totalPayout: int): seq<seq<string>> {
    [ [ReportTitle],
      [TotalArticlesLabel, IntToString(totalArticles)],
      [TotalPayoutLabel, Dollars(totalPayout)],
      [],
      ["Author", "Articles Count", "Payout"] ]
  }

  function SheetsDataRow(item: PayoutRow): seq<string> {
    [item.author, IntToString(item.articlesCount), Dollars(item.payout)]
  }

  function SheetsDataRows(rows: seq<PayoutRow>): (records: seq<seq<string>>)
    ensures |records| == |rows| && forall i :: 0 <= i < |rows| ==> records[i] == SheetsDataRow(rows[i])
  {
    seq(|rows|, i requires 0 <= i < |rows| => SheetsDataRow(rows[i]))
  }

  /** The `csvRows` array: the header block, then one row per entry of `rows`. */
  function SheetsRows(totalArticles: int, totalPayout: int, rows: seq<PayoutRow>): seq<seq<string>> {
    SheetsHeader(totalArticles, totalPayout) + SheetsDataRows(rows)
  }

  /** `csvContent`. */
  function SheetsCsv(totalArticles: int, totalPayout: int, rows: seq<PayoutRow>): string {
    Render(SheetsRows(totalArticles, totalPayout, rows), "\n")
  }

  /** The line of data row `item`. */
  function SheetsLine(item: PayoutRow): string {
    item.author + "," + IntToString(item.articlesCount) + "," + Dollars(item.payout)
  }

  /** One line per data row, in row order. */
  function DataLines(rows: seq<PayoutRow>): (lines: seq<string>)
    ensures |lines| == |rows| && forall i :: 0 <= i < |rows| ==> lines[i] == SheetsLine(rows[i])
  {
    seq(|rows|, i requires 0 <= i < |rows| => SheetsLine(rows[i]))
  }

  /** A number rendered by `IntToString` or `Dollars` holds neither a line feed nor a comma. */
  lemma NumberLacks(n: int, c: char)
    requires c == '\n' || c == ','
    ensures Lacks(IntToString(n), c) && Lacks(Dollars(n), c)
  {
    IntToStringLacks(n, c);
    LacksConcat("$", IntToString(n), c);
  }

  lemma DataLine(item: PayoutRow)
    ensures Join(SheetsDataRow(item), ",") == SheetsLine(item)
  {
    JoinThree(item.author, IntToString(item.articlesCount), Dollars(item.payout), ",");
  }

  /** A data line holds a line feed only where its author does. */
  lemma DataLineLacks(item: PayoutRow)
    requires Lacks(item.author, '\n')
    ensures Lacks(SheetsLine(item), '\n')
  {
    var c := '\n';
    NumberLacks(item.articlesCount, c);
    NumberLacks(item.payout, c);
    LacksConcat(item.author, ",", c);
    LacksConcat(item.author + ",", IntToString(item.articlesCount), c);
    LacksConcat(item.author + "," + IntToString(item.articlesCount), ",", c);
    LacksConcat(item.author + "," + IntToString(item.articlesCount) + ",", Dollars(item.payout), c);
  }

  /** The five header lines as text. */
  function HeaderLines(totalArticles: int, totalPayout: int): seq<string> {
    [ ReportTitle,
      TotalArticlesLabel + "," + IntToString(totalArticles),
      TotalPayoutLabel + "," + Dollars(totalPayout),
      "",
      "Author,Articles Count,Payout" ]
  }

  lemma ColumnsLine()
    ensures Join(["Author", "Articles Count", "Payout"], ",") == "Author,Articles Count,Payout"
  {
    JoinThree("Author", "Articles Count", "Payout", ",");
  }

  lemma HeaderLinesAre(totalArticles: int, totalPayout: int)
    ensures Lines(SheetsHeader(totalArticles, totalPayout)) == HeaderLines(totalArticles, totalPayout)
  {
    JoinTwo(TotalArticlesLabel, IntToString(totalArticles), ",");
    JoinTwo(TotalPayoutLabel, Dollars(totalPayout), ",");
    ColumnsLine();
    assert Join([ReportTitle], ",") == ReportTitle;
    assert Join([], ",") == "";
  }

  lemma LiteralLinesLackNewline()
    ensures Lacks(ReportTitle, '\n') && Lacks(TotalArticlesLabel + ",", '\n') && Lacks(TotalPayoutLabel + ",", '\n')
    ensures Lacks("Author,Articles Count,Payout", '\n')
  {
  }

  lemma HeaderLacksNewline(totalArticles: int, totalPayout: int)
    ensures AllLack(HeaderLines(totalArticles, totalPayout), '\n')
  {
    var c := '\n';
    LiteralLinesLackNewline();
    NumberLacks(totalArticles, c);
    NumberLacks(totalPayout, c);
    LacksConcat(TotalArticlesLabel + ",", IntToString(totalArticles), c);
    LacksConcat(TotalPayoutLabel + ",", Dollars(totalPayout), c);
    var lines := HeaderLines(totalArticles, totalPayout);
    forall k | 0 <= k < 5 ensures Lacks(lines[k], c) {
    }
  }

  lemma DataLacksNewline(rows: seq<PayoutRow>)
    requires forall i :: 0 <= i < |rows| ==> Lacks(rows[i].author, '\n')
    ensures AllLack(DataLines(rows), '\n')
  {
    forall k | 0 <= k < |rows| ensures Lacks(SheetsLine(rows[k]), '\n') {
      DataLineLacks(rows[k]);
    }
  }

  /** The lines of the text: those of the header block, then one per data row. */
  lemma SheetsLinesAre(totalArticles: int, totalPayout: int, rows: seq<PayoutRow>)
    ensures Lines(SheetsRows(totalArticles, totalPayout, rows)) == HeaderLines(totalArticles, totalPayout) + DataLines(rows)
  {
    HeaderLinesAre(totalArticles, totalPayout);
    var header := SheetsHeader(totalArticles, totalPayout);
    var lines := Lines(SheetsRows(totalArticles, totalPayout, rows));
    var expected := Lines(header) + DataLines(rows);
    forall k | 0 <= k < |lines| ensures lines[k] == expected[k] {
      if k >= 5 {
        DataLine(rows[k - 5]);
      }
    }
  }

  /**
   * When no author holds a line feed, the text splits on line feeds into exactly its
   * lines: the five header lines, then line 5 + i is row i's author, count and payout.
   */
  lemma SplitSheetsCsv(totalArticles: int, totalPayout: int, rows: seq<PayoutRow>)
    requires forall i :: 0 <= i < |rows| ==> Lacks(rows[i].author, '\n')
    ensures Split(SheetsCsv(totalArticles, totalPayout, rows), '\n') == HeaderLines(totalArticles, totalPayout) + DataLines(rows)
  {
    var header := HeaderLines(totalArticles, totalPayout);
    SheetsLinesAre(totalArticles, totalPayout, rows);
    HeaderLacksNewline(totalArticles, totalPayout);
    DataLacksNewline(rows);
    AllLackAppend(header, DataLines(rows), '\n');
    SplitJoin(header + DataLines(rows), '\n');
  }

  /**
   * The author is not quoted: a data line splits on `,` into 3 fields plus one more for
   * every comma in the author; with no comma it gives back author, count and payout.
   */
  lemma SheetsLineFields(item: PayoutRow)
    ensures |Split(SheetsLine(item), ',')| == 3 + Occurrences(item.author, ',')
    ensures Lacks(item.author, ',') ==>
      Split(SheetsLine(item), ',') == [item.author, IntToString(item.articlesCount), Dollars(item.payout)]
  {
    var parts := SheetsDataRow(item);
    DataLine(item);
    NumberLacks(item.articlesCount, ',');
    NumberLacks(item.payout, ',');
    NoOccurrences(IntToString(item.articlesCount), ',');
    NoOccurrences(Dollars(item.payout), ',');
    OccurrencesJoin(parts, ',');
    SplitLength(SheetsLine(item), ',');
    assert SumOccurrences(parts, ',') == Occurrences(item.author, ',') by {
      assert parts[1..] == [IntToString(item.articlesCount), Dollars(item.payout)];
      assert parts[1..][1..] == [Dollars(item.payout)];
      assert parts[1..][1..][1..] == [];
      assert SumOccurrences(parts[1..][1..], ',') == Occurrences(Dollars(item.payout), ',');
      assert SumOccurrences(parts[1..], ',') == Occurrences(IntToString(item.articlesCount), ',') + SumOccurrences(parts[1..][1..], ',');
    }
    if Lacks(item.author, ',') {
      SplitJoin(parts, ',');
    }
  }

  /** A comma in an author name moves the count and payout one column to the right. */
  lemma CommaAuthorShiftsColumns()
    ensures |Split(SheetsLine(PayoutRow("Doe, Jane", 2, 20, 40)), ',')| == 4
  {
    var item := PayoutRow("Doe, Jane", 2, 20, 40);
    SheetsLineFields(item);
    OneComma();
  }

  lemma OneComma()
    ensures Occurrences("Doe, Jane", ',') == 1
  {
    assert "Doe, Jane" == "Doe" + ", Jane";
    OccurrencesAppend("Doe", ", Jane", ',');
    assert ", Jane"[1..] == " Jane";
    NoOccurrences("Doe", ',');
    NoOccurrences(" Jane", ',');
  }
}
