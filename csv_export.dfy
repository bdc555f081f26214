/**
 * The CSV download of the payout table (`exportToCSV`): a five-row header block, one row
 * per payout row with the author quoted, fields joined with `,` and rows with `\r\n`.
 *
 * Beside it, a reader for the same dialect (quoted fields with `""` for a quote, records
 * separated by `\r\n`), and the proof that reading the export gives back every row.
 */
module CsvExport {
  import opened Wrappers
  import opened JsText
  import opened Payout

  const ReportTitle: string := "Author Payouts Report"
  const TotalArticlesLabel: string := "Total Articles:"
  const TotalPayoutLabel: string := "Total Payout:"

  // ---------------------------------------------------------------- writing

  /** `s.replace(/"/g, '""')`: every quote doubled. */
  function Escape(s: string): string {
    if s == [] then []
    else (if s[0] == '"' then "\"\"" else [s[0]]) + Escape(s[1..])
  }

  /** The author cell: the escaped text between two quotes. */
  function QuoteField(s: string): string {
    "\"" + Escape(s) + "\""
  }

  /** A template literal `$${n}`. */
  function Dollars(n: int): string {
    "$" + IntToString(n)
  }

  /** `rows.map(row => row.join(',')).join(eol)`. */
  function Render(rows: seq<seq<string>>, eol: string): string {
    Join(Lines(rows), eol)
  }

  function Lines(rows: seq<seq<string>>): (lines: seq<string>)
    ensures |lines| == |rows| && forall i :: 0 <= i < |rows| ==> lines[i] == Join(rows[i], ",")
  {
    seq(|rows|, i requires 0 <= i < |rows| => Join(rows[i], ","))
  }

  function CsvHeader(totalArticles: int, totalPayout: int): seq<seq<string>> {
    [ [ReportTitle],
      [TotalArticlesLabel, IntToString(totalArticles)],
      [TotalPayoutLabel, Dollars(totalPayout)],
      [],
      ["Author", "Articles Count", "Payout Rate", "Payout"] ]
  }

  function CsvDataRow(item: PayoutRow): seq<string> {
    [QuoteField(item.author), IntToString(item.articlesCount), Dollars(item.payoutRate), Dollars(item.payout)]
  }

  /** One record per payout row, in row order. */
  function CsvDataRows(data: seq<PayoutRow>): (rows: seq<seq<string>>)
    ensures |rows| == |data| && forall i :: 0 <= i < |data| ==> rows[i] == CsvDataRow(data[i])
  {
    seq(|data|, i requires 0 <= i < |data| => CsvDataRow(data[i]))
  }

  /** The `csvRows` array of `exportToCSV`. */
  function CsvRows(totalArticles: int, totalPayout: int, data: seq<PayoutRow>): seq<seq<string>> {
    CsvHeader(totalArticles, totalPayout) + CsvDataRows(data)
  }

  /** The text of the downloaded `payouts.csv`. */
  function CsvContent(totalArticles: int, totalPayout: int, data: seq<PayoutRow>): string {
    Render(CsvRows(totalArticles, totalPayout, data), "\r\n")
  }

  // ---------------------------------------------------------------- reading

  /** The body of a quoted field, after its opening quote: `""` is one quote, a lone `"` closes it. */
  function ReadQuoted(s: string): (r: Option<(string, string)>)
    ensures r.Some? ==> |r.value.1| < |s|
    decreases |s|
  {
    if s == [] then None
    else if s[0] == '"' then
      if |s| >= 2 && s[1] == '"' then
        match ReadQuoted(s[2..])
        case Some(p) => Some(([s[0]] + p.0, p.1))
        case None => None
      else Some(("", s[1..]))
    else
      match ReadQuoted(s[1..])
      case Some(p) => Some(([s[0]] + p.0, p.1))
      case None => None
  }

  /** An unquoted field runs up to the next `,` or carriage return. */
  function ReadPlain(s: string): (r: (string, string))
    ensures r.0 + r.1 == s
    decreases |s|
  {
    if s == [] || s[0] == ',' || s[0] == '\r' then ("", s)
    else
      var p := ReadPlain(s[1..]);
      ([s[0]] + p.0, p.1)
  }

  function ReadField(s: string): (r: Option<(string, string)>)
    ensures r.Some? ==> |r.value.1| <= |s|
  {
    if |s| > 0 && s[0] == '"' then ReadQuoted(s[1..])
    else
      var p := ReadPlain(s);
      assert |p.0 + p.1| == |s|;
      Some(p)
  }

  /** The fields of one record, separated by `,`; the rest of the text follows. */
  function ReadRecord(s: string): (r: Option<(seq<string>, string)>)
    ensures r.Some? ==> |r.value.1| <= |s|
    decreases |s|
  {
    match ReadField(s)
    case None => None
    case Some(f) =>
      if |f.1| > 0 && f.1[0] == ',' then
        match ReadRecord(f.1[1..])
        case Some(p) => Some(([f.0] + p.0, p.1))
        case None => None
      else Some(([f.0], f.1))
  }

  /** A whole document: records separated by `\r\n`; None when the text is not well formed. */
  function ReadCsv(s: string): Option<seq<seq<string>>>
    decreases |s|
  {
    match ReadRecord(s)
    case None => None
    case Some(p) =>
      if p.1 == [] then Some([p.0])
      else if |p.1| >= 2 && p.1[0] == '\r' && p.1[1] == '\n' then
        match ReadCsv(p.1[2..])
        case Some(records) => Some([p.0] + records)
        case None => None
      else None
  }

  // ---------------------------------------------------------------- reading what was written

  /** Text that can stand in a field unquoted. */
  predicate Plain(f: string) {
    forall i :: 0 <= i < |f| ==> f[i] != ',' && f[i] != '"' && f[i] != '\r'
  }

  /** `field`, as written, reads back as `value`. */
  predicate Encodes(field: string, value: string) {
    field == QuoteField(value) || (field == value && Plain(value))
  }

  /** The text after a field: nothing, the next field, or the end of the record. */
  predicate FieldEnd(t: string) {
    t == [] || t[0] == ',' || t[0] == '\r'
  }

  lemma {:induction false} ReadQuotedEscape(v: string, t: string)
    requires t == [] || t[0] != '"'
    ensures ReadQuoted(Escape(v) + "\"" + t) == Some((v, t))
  {
    var s := Escape(v) + "\"" + t;
    if v == [] {
      assert s == "\"" + t;
      assert s[1..] == t;
    } else {
      ReadQuotedEscape(v[1..], t);
      var tail := Escape(v[1..]) + "\"" + t;
      if v[0] == '"' {
        assert s == "\"\"" + tail;
        assert s[2..] == tail;
      } else {
        assert s == [v[0]] + tail;
        assert s[1..] == tail;
      }
      assert [v[0]] + v[1..] == v;
    }
  }

  lemma {:induction false} ReadPlainText(p: string, t: string)
    requires Plain(p) && FieldEnd(t)
    ensures ReadPlain(p + t) == (p, t)
  {
    if p == [] {
      assert p + t == t;
    } else {
      assert (p + t)[1..] == p[1..] + t;
      ReadPlainText(p[1..], t);
      assert [p[0]] + p[1..] == p;
    }
  }

  /** Every field written by the exporter reads back as its value, whatever follows it. */
  lemma ReadFieldEncoded(f: string, v: string, t: string)
    requires Encodes(f, v) && FieldEnd(t)
    ensures ReadField(f + t) == Some((v, t))
  {
    if f == QuoteField(v) {
      var s := f + t;
      assert s == "\"" + (Escape(v) + "\"" + t);
      assert s[1..] == Escape(v) + "\"" + t;
      ReadQuotedEscape(v, t);
    } else {
      ReadPlainText(f, t);
      assert f != [] ==> (f + t)[0] == f[0];
    }
  }

  /** A record written field by field reads back as its values. */
  lemma {:induction false} ReadRecordJoined(fields: seq<string>, values: seq<string>, t: string)
    requires |fields| == |values| > 0
    requires forall i :: 0 <= i < |fields| ==> Encodes(fields[i], values[i])
    requires t == [] || t[0] == '\r'
    ensures ReadRecord(Join(fields, ",") + t) == Some((values, t))
  {
    if |fields| == 1 {
      ReadFieldEncoded(fields[0], values[0], t);
      assert [values[0]] == values;
    } else {
      var rest := Join(fields[1..], ",") + t;
      assert Join(fields, ",") + t == fields[0] + ("," + rest);
      ReadFieldEncoded(fields[0], values[0], "," + rest);
      assert ("," + rest)[1..] == rest;
      ReadRecordJoined(fields[1..], values[1..], t);
      assert [values[0]] + values[1..] == values;
    }
  }

  /** A document written record by record (none of them empty) reads back as its values. */
  lemma {:induction false} ReadCsvRendered(rows: seq<seq<string>>, values: seq<seq<string>>)
    requires |rows| > 0 && EncodesRows(rows, values)
    ensures ReadCsv(Render(rows, "\r\n")) == Some(values)
  {
    var lines := Lines(rows);
    if |rows| == 1 {
      ReadRecordJoined(rows[0], values[0], []);
      assert Render(rows, "\r\n") == lines[0] + [];
      assert [values[0]] == values;
    } else {
      var rest := Render(rows[1..], "\r\n");
      assert Lines(rows[1..]) == lines[1..];
      assert Render(rows, "\r\n") == lines[0] + ("\r\n" + rest);
      ReadRecordJoined(rows[0], values[0], "\r\n" + rest);
      assert ("\r\n" + rest)[2..] == rest;
      ReadCsvRendered(rows[1..], values[1..]);
      assert [values[0]] + values[1..] == values;
    }
  }

  // ---------------------------------------------------------------- the export reads back

  /** The values a reader sees in the header block (the empty row reads as one empty field). */
  function HeaderValues(totalArticles: int, totalPayout: int): seq<seq<string>> {
    [ [ReportTitle],
      [TotalArticlesLabel, IntToString(totalArticles)],
      [TotalPayoutLabel, Dollars(totalPayout)],
      [""],
      ["Author", "Articles Count", "Payout Rate", "Payout"] ]
  }

  function RowValues(item: PayoutRow): seq<string> {
    [item.author, IntToString(item.articlesCount), Dollars(item.payoutRate), Dollars(item.payout)]
  }

  /** Reads a `$`-prefixed amount. */
  function ParseDollars(s: string): Option<int> {
    if |s| > 0 && s[0] == '$' then ParseInt(s[1..]) else None
  }

  /** Turns the four values of a data record back into a payout row. */
  function DecodeRow(record: seq<string>): Option<PayoutRow> {
    if |record| != 4 then None
    else match (ParseInt(record[1]), ParseDollars(record[2]), ParseDollars(record[3]))
      case (Some(n), Some(rate), Some(payout)) =>
        if n < 0 then None else Some(PayoutRow(record[0], n, rate, payout))
      case _ => None
  }

  lemma ParseDollarsOf(n: int)
    ensures ParseDollars(Dollars(n)) == Some(n)
  {
    ParseIntOfIntToString(n);
    assert Dollars(n)[1..] == IntToString(n);
  }

  /** A record of four values whose last three parse reads as the row they describe. */
  lemma DecodeParsed(record: seq<string>, n: nat, rate: int, payout: int)
    requires |record| == 4
    requires ParseInt(record[1]) == Some(n) && ParseDollars(record[2]) == Some(rate) && ParseDollars(record[3]) == Some(payout)
    ensures DecodeRow(record) == Some(PayoutRow(record[0], n, rate, payout))
  {
  }

  /** The values of a data row decode to that very row. */
  lemma DecodeRowValues(item: PayoutRow)
    ensures DecodeRow(RowValues(item)) == Some(item)
  {
    var record := RowValues(item);
    assert record[0] == item.author && record[1] == IntToString(item.articlesCount);
    assert record[2] == Dollars(item.payoutRate) && record[3] == Dollars(item.payout);
    ParseIntOfIntToString(item.articlesCount);
    ParseDollarsOf(item.payoutRate);
    ParseDollarsOf(item.payout);
    DecodeParsed(record, item.articlesCount, item.payoutRate, item.payout);
  }

  lemma PlainNumber(n: int)
    ensures Plain(IntToString(n)) && Plain(Dollars(n))
  {
    forall i | 0 <= i < |IntToString(n)| ensures IntToString(n)[i] == '-' || IsDigit(IntToString(n)[i]) {
      IntToStringSafe(n, i);
    }
    forall i | 1 <= i < |Dollars(n)| ensures Dollars(n)[i] == IntToString(n)[i - 1] {
    }
  }

  lemma PlainTitles()
    ensures Plain(ReportTitle) && Plain(TotalArticlesLabel) && Plain(TotalPayoutLabel)
  {
  }

  lemma PlainColumnNames()
    ensures Plain("Author") && Plain("Articles Count") && Plain("Payout Rate") && Plain("Payout")
  {
  }

  /** Every header cell is plain text: it stands unquoted and reads back as itself. */
  lemma PlainHeader(totalArticles: int, totalPayout: int)
    ensures forall k, i :: 0 <= k < 5 && 0 <= i < |CsvHeader(totalArticles, totalPayout)[k]| ==>
      Plain(CsvHeader(totalArticles, totalPayout)[k][i])
  {
    PlainTitles();
    PlainColumnNames();
    PlainNumber(totalArticles);
    PlainNumber(totalPayout);
    var h := CsvHeader(totalArticles, totalPayout);
    assert h[0] == [ReportTitle];
    assert h[1] == [TotalArticlesLabel, IntToString(totalArticles)];
    assert h[2] == [TotalPayoutLabel, Dollars(totalPayout)];
    assert h[3] == [];
    assert h[4] == ["Author", "Articles Count", "Payout Rate", "Payout"];
  }

  /** Row by row and cell by cell, `written` reads back as `values`, and no row is empty. */
  predicate EncodesRows(written: seq<seq<string>>, values: seq<seq<string>>) {
    |written| == |values|
    && (forall k :: 0 <= k < |written| ==> |written[k]| == |values[k]| > 0)
    && forall k, i :: 0 <= k < |written| && 0 <= i < |written[k]| ==> Encodes(written[k][i], values[k][i])
  }

  lemma EncodesRowsAppend(w1: seq<seq<string>>, v1: seq<seq<string>>, w2: seq<seq<string>>, v2: seq<seq<string>>)
    requires EncodesRows(w1, v1) && EncodesRows(w2, v2)
    ensures EncodesRows(w1 + w2, v1 + v2)
  {
    var w, v := w1 + w2, v1 + v2;
    forall k | |w1| <= k < |w| ensures w[k] == w2[k - |w1|] && v[k] == v2[k - |w1|] {
    }
  }

  /** The header block as written, with its empty row read as one empty field, reads back as `HeaderValues`. */
  lemma HeaderEncodes(totalArticles: int, totalPayout: int)
    ensures EncodesRows(CsvHeader(totalArticles, totalPayout)[3 := [""]], HeaderValues(totalArticles, totalPayout))
  {
    PlainHeader(totalArticles, totalPayout);
    var written := CsvHeader(totalArticles, totalPayout)[3 := [""]];
    var values := HeaderValues(totalArticles, totalPayout);
    forall k, i | 0 <= k < 5 && 0 <= i < |written[k]| ensures Encodes(written[k][i], values[k][i]) {
      if k == 3 {
        assert written[k][i] == "" == values[k][i];
      } else {
        assert written[k] == CsvHeader(totalArticles, totalPayout)[k] == values[k];
      }
    }
  }

  /** A data row's cells read back as its values: the quoted author and three plain numbers. */
  lemma DataRowEncodes(item: PayoutRow)
    ensures |CsvDataRow(item)| == |RowValues(item)| == 4
    ensures forall i :: 0 <= i < 4 ==> Encodes(CsvDataRow(item)[i], RowValues(item)[i])
  {
    PlainNumber(item.articlesCount);
    PlainNumber(item.payoutRate);
    PlainNumber(item.payout);
  }

  function DataValues(data: seq<PayoutRow>): (values: seq<seq<string>>)
    ensures |values| == |data| && forall i :: 0 <= i < |data| ==> values[i] == RowValues(data[i])
  {
    seq(|data|, i requires 0 <= i < |data| => RowValues(data[i]))
  }

  lemma DataEncodes(data: seq<PayoutRow>)
    ensures EncodesRows(CsvDataRows(data), DataValues(data))
  {
    forall k | 0 <= k < |data| ensures |CsvDataRow(data[k])| == |RowValues(data[k])| > 0
      && forall i :: 0 <= i < 4 ==> Encodes(CsvDataRow(data[k])[i], RowValues(data[k])[i])
    {
      DataRowEncodes(data[k]);
    }
  }

  /** The empty header row renders the same whether it holds no field or one empty field. */
  lemma RenderEmptyRow(rows: seq<seq<string>>, written: seq<seq<string>>, eol: string)
    requires |rows| > 3 && rows[3] == [] && written == rows[3 := [""]]
    ensures Render(written, eol) == Render(rows, eol)
  {
    assert Join([], ",") == Join([""], ",");
    assert Lines(written) == Lines(rows);
  }

  /**
   * Reading the export gives the header block and then, for every payout row in order, a
   * record that decodes to that very row: the author exactly (commas and quotes
   * included), its count, its rate and its payout.
   */
  lemma CsvRoundTrip(totalArticles: int, totalPayout: int, data: seq<PayoutRow>)
    ensures ReadCsv(CsvContent(totalArticles, totalPayout, data)).Some?
    ensures var records := ReadCsv(CsvContent(totalArticles, totalPayout, data)).value;
      |records| == 5 + |data|
      && records[..5] == HeaderValues(totalArticles, totalPayout)
      && forall i :: 0 <= i < |data| ==> DecodeRow(records[5 + i]) == Some(data[i])
  {
    var header := CsvHeader(totalArticles, totalPayout);
    var written := header[3 := [""]] + CsvDataRows(data);
    var values := HeaderValues(totalArticles, totalPayout) + DataValues(data);
    RenderEmptyRow(header + CsvDataRows(data), written, "\r\n");
    HeaderEncodes(totalArticles, totalPayout);
    DataEncodes(data);
    EncodesRowsAppend(header[3 := [""]], HeaderValues(totalArticles, totalPayout), CsvDataRows(data), DataValues(data));
    ReadCsvRendered(written, values);
    assert values[..5] == HeaderValues(totalArticles, totalPayout);
    forall i | 0 <= i < |data| ensures DecodeRow(values[5 + i]) == Some(data[i]) {
      assert values[5 + i] == RowValues(data[i]);
      DecodeRowValues(data[i]);
    }
  }

  /** A quote is doubled and every other character kept. */
  lemma EscapeExample()
    ensures Escape("J\"J") == "J\"\"J"
  {
  }

  /** An author with a comma and quotes is written as one quoted field and read back intact. */
  lemma QuotedAuthorExample()
    ensures ReadField(QuoteField("Doe, \"JJ\"") + ",1") == Some(("Doe, \"JJ\"", ",1"))
  {
    ReadFieldEncoded(QuoteField("Doe, \"JJ\""), "Doe, \"JJ\"", ",1");
  }
}
