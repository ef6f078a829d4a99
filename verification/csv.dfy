/** CSV export of a bill's line items and of one usage chart, following
    section 2 of RFC 4180: fields separated by commas, records ended by
    CRLF, a field holding a quote, comma, CR or LF enclosed in quotes with
    each inner quote doubled. A reader for that format is the partner:
    reading the written text back gives the rows that were written. */
module Csv {
  import opened Wrappers
  import opened Json
  import opened Text
  import opened Types
  import UsageTable
  import NumParse

  // ---- one cell ----

  predicate IsSpecial(c: char) { c == '"' || c == ',' || c == '\n' || c == '\r' }

  predicate NeedsQuotes(s: string) { exists i :: 0 <= i < |s| && IsSpecial(s[i]) }

  /** Each quote written twice. */
  function DoubleQuotes(s: string): (r: string)
    ensures |r| >= |s|
  {
    if |s| == 0 then ""
    else if s[0] == '"' then "\"\"" + DoubleQuotes(s[1..])
    else [s[0]] + DoubleQuotes(s[1..])
  }

  /** Quotes are doubled one character at a time: doubling distributes
      over concatenation, a quote becomes two quotes and any other character
      stays as it is. */
  lemma {:induction false} DoubleQuotesAppend(a: string, b: string)
    ensures DoubleQuotes(a + b) == DoubleQuotes(a) + DoubleQuotes(b)
    decreases |a|
  {
    if |a| == 0 {
      assert a + b == b;
    } else {
      assert (a + b)[0] == a[0];
      assert (a + b)[1..] == a[1..] + b;
      DoubleQuotesAppend(a[1..], b);
    }
  }

  lemma DoubleQuotesChar(c: char)
    ensures DoubleQuotes([c]) == if c == '"' then "\"\"" else [c]
  {
    assert [c][1..] == "";
  }

  /** `escapeCsvCell`: a missing cell is empty; a cell with a quote,
      comma, CR or LF is quoted with its quotes doubled; any other is
      written as it is. */
  function EscapeCell(cell: Option<string>): (r: string)
    ensures cell.None? ==> r == ""
    ensures cell.Some? && !NeedsQuotes(cell.value) ==> r == cell.value
    ensures cell.Some? && NeedsQuotes(cell.value) ==> |r| >= 2 && r[0] == '"' && r[|r| - 1] == '"'
  {
    var s := cell.GetOr("");
    if NeedsQuotes(s) then "\"" + DoubleQuotes(s) + "\"" else s
  }

  function Escape(s: string): string { EscapeCell(Some(s)) }

  /** The cells of a record, escaped and joined by commas. */
  function JoinCells(cells: seq<string>): (r: string)
    requires |cells| > 0
    decreases |cells|
  {
    if |cells| == 1 then Escape(cells[0]) else Escape(cells[0]) + "," + JoinCells(cells[1..])
  }

  /** One record with its CRLF terminator. */
  function Line(cells: seq<string>): string
    requires |cells| > 0
  {
    JoinCells(cells) + "\r\n"
  }

  predicate AllNonEmpty(rows: seq<seq<string>>) { forall i :: 0 <= i < |rows| ==> |rows[i]| > 0 }

  /** Records one after the other, each ended by CRLF. */
  function Render(rows: seq<seq<string>>): string
    requires AllNonEmpty(rows)
  {
    if |rows| == 0 then "" else Line(rows[0]) + Render(rows[1..])
  }

  // ---- reading it back ----

  /** The text of a quoted field after its opening quote: up to the closing
      quote, with each doubled quote read as one; `None` when unterminated. */
  function ReadQuoted(t: string): (r: Option<(string, string)>)
    ensures r.Some? ==> |r.value.1| < |t|
    decreases |t|
  {
    if |t| == 0 then None
    else if t[0] == '"' then
      if |t| > 1 && t[1] == '"' then
        match ReadQuoted(t[2..])
        case Some((f, rest)) => Some(("\"" + f, rest))
        case None => None
      else Some(("", t[1..]))
    else
      match ReadQuoted(t[1..])
      case Some((f, rest)) => Some(([t[0]] + f, rest))
      case None => None
  }

  /** An unquoted field: everything up to the next comma or CR. */
  function ReadBare(t: string): (r: (string, string))
    ensures r.0 + r.1 == t
    ensures |r.1| > 0 ==> r.1[0] == ',' || r.1[0] == '\r'
  {
    if |t| == 0 || t[0] == ',' || t[0] == '\r' then ("", t)
    else
      var (f, rest) := ReadBare(t[1..]);
      assert t == [t[0]] + t[1..];
      ([t[0]] + f, rest)
  }

  function ReadField(t: string): (r: Option<(string, string)>)
    ensures r.Some? ==> |r.value.1| <= |t|
  {
    if |t| > 0 && t[0] == '"' then ReadQuoted(t[1..])
    else
      var (f, rest) := ReadBare(t);
      Some((f, rest))
  }

  /** The fields of one record and the text after its CRLF. */
  function ReadRecord(t: string): (r: Option<(seq<string>, string)>)
    ensures r.Some? ==> |r.value.1| < |t| && |r.value.0| > 0
    decreases |t|
  {
    match ReadField(t)
    case None => None
    case Some((f, rest)) =>
      if StartsWith(rest, "\r\n") then Some(([f], rest[2..]))
      else if |rest| > 0 && rest[0] == ',' then
        match ReadRecord(rest[1..])
        case Some((fs, after)) => Some(([f] + fs, after))
        case None => None
      else None
  }

  /** A whole CSV text as records; `None` when it is not well formed. */
  function ReadCsv(t: string): (r: Option<seq<seq<string>>>)
    ensures r.Some? ==> AllNonEmpty(r.value)
    decreases |t|
  {
    if |t| == 0 then Some([])
    else
      match ReadRecord(t)
      case None => None
      case Some((rec, rest)) =>
        match ReadCsv(rest)
        case Some(recs) => Some([rec] + recs)
        case None => None
  }

  // ---- the round trip ----

  /** What may follow a field: the end, a comma, or the record's CR. */
  predicate FieldEnd(rest: string) {
    |rest| == 0 || rest[0] == ',' || rest[0] == '\r'
  }

  lemma {:induction false} ReadBareOf(c: string, rest: string)
    requires !NeedsQuotes(c)
    requires FieldEnd(rest)
    ensures ReadBare(c + rest) == (c, rest)
    decreases |c|
  {
    if |c| == 0 {
      assert c + rest == rest;
    } else {
      assert !IsSpecial(c[0]);
      assert (c + rest)[1..] == c[1..] + rest;
      assert !NeedsQuotes(c[1..]) by {
        forall i | 0 <= i < |c[1..]| ensures !IsSpecial(c[1..][i]) {
          assert c[1..][i] == c[i + 1];
        }
      }
      ReadBareOf(c[1..], rest);
      assert (c + rest)[0] == c[0];
      assert c == [c[0]] + c[1..];
    }
  }

  lemma {:induction false} ReadQuotedOf(c: string, rest: string)
    requires |rest| == 0 || rest[0] != '"'
    ensures ReadQuoted(DoubleQuotes(c) + "\"" + rest) == Some((c, rest))
    decreases |c|
  {
    var t := DoubleQuotes(c) + "\"" + rest;
    if |c| == 0 {
      assert t == "\"" + rest;
      assert t[1..] == rest;
    } else if c[0] == '"' {
      assert t == "\"\"" + (DoubleQuotes(c[1..]) + "\"" + rest);
      ReadQuotedOf(c[1..], rest);
      assert c == "\"" + c[1..];
    } else {
      assert t == [c[0]] + (DoubleQuotes(c[1..]) + "\"" + rest);
      ReadQuotedOf(c[1..], rest);
      assert c == [c[0]] + c[1..];
    }
  }

  /** An escaped cell reads back as the cell, whatever follows it. */
  lemma ReadFieldOf(c: string, rest: string)
    requires FieldEnd(rest)
    ensures ReadField(Escape(c) + rest) == Some((c, rest))
  {
    if NeedsQuotes(c) {
      var t := Escape(c) + rest;
      assert t == "\"" + (DoubleQuotes(c) + "\"" + rest);
      assert t[1..] == DoubleQuotes(c) + "\"" + rest;
      ReadQuotedOf(c, rest);
    } else {
      ReadBareOf(c, rest);
      if |c| > 0 {
        assert !IsSpecial(c[0]);
        assert (c + rest)[0] == c[0];
      }
    }
  }

  /** A field followed by the record's CRLF ends the record. */
  lemma ReadRecordLast(t: string, f: string, rest: string)
    requires ReadField(t) == Some((f, "\r\n" + rest))
    ensures ReadRecord(t) == Some(([f], rest))
  {
    assert StartsWith("\r\n" + rest, "\r\n") && ("\r\n" + rest)[2..] == rest;
  }

  /** A field followed by a comma heads the fields read after the comma. */
  lemma ReadRecordMore(t: string, f: string, u: string, fs: seq<string>, rest: string)
    requires ReadField(t) == Some((f, "," + u))
    requires ReadRecord(u) == Some((fs, rest))
    ensures ReadRecord(t) == Some(([f] + fs, rest))
  {
    assert !StartsWith("," + u, "\r\n");
    assert ("," + u)[1..] == u;
  }

  /** The written record splits after its first cell. */
  lemma JoinCellsFirst(cells: seq<string>, rest: string, u: string)
    requires |cells| > 1 && u == JoinCells(cells[1..]) + "\r\n" + rest
    ensures JoinCells(cells) + "\r\n" + rest == Escape(cells[0]) + ("," + u)
  {
  }

  lemma {:induction false} ReadRecordOf(cells: seq<string>, rest: string)
    requires |cells| > 0
    ensures ReadRecord(JoinCells(cells) + "\r\n" + rest) == Some((cells, rest))
    decreases |cells|
  {
    var t := JoinCells(cells) + "\r\n" + rest;
    if |cells| == 1 {
      assert t == Escape(cells[0]) + ("\r\n" + rest);
      ReadFieldOf(cells[0], "\r\n" + rest);
      ReadRecordLast(t, cells[0], rest);
      assert cells == [cells[0]];
    } else {
      var u := JoinCells(cells[1..]) + "\r\n" + rest;
      JoinCellsFirst(cells, rest, u);
      ReadFieldOf(cells[0], "," + u);
      ReadRecordOf(cells[1..], rest);
      ReadRecordMore(t, cells[0], u, cells[1..], rest);
      assert cells == [cells[0]] + cells[1..];
    }
  }

  /** A record read off the front of the text heads the records after it. */
  lemma ReadCsvStep(t: string, r: seq<string>, rest: string, rs: seq<seq<string>>)
    requires |t| > 0 && ReadRecord(t) == Some((r, rest))
    requires ReadCsv(rest) == Some(rs)
    ensures ReadCsv(t) == Some([r] + rs)
  {
  }

  /** Reading the written text gives back exactly the rows written. */
  lemma {:induction false} ReadRender(rows: seq<seq<string>>)
    requires AllNonEmpty(rows)
    ensures ReadCsv(Render(rows)) == Some(rows)
    decreases |rows|
  {
    if |rows| > 0 {
      var rest := Render(rows[1..]);
      var t := Render(rows);
      assert t == JoinCells(rows[0]) + "\r\n" + rest;
      ReadRecordOf(rows[0], rest);
      ReadRender(rows[1..]);
      ReadCsvStep(t, rows[0], rest, rows[1..]);
      assert rows == [rows[0]] + rows[1..];
    }
  }

  /** A cell that needs no quoting reads back alone; one that does is read
      back from inside its quotes with its doubled quotes halved. */
  lemma EscapeRoundTrip(c: string)
    ensures ReadField(Escape(c)) == Some((c, ""))
  {
    assert Escape(c) + "" == Escape(c);
    ReadFieldOf(c, "");
  }

  // ---- the line-item export ----

  /** `String(n)`: how a number prints is left to the caller. */
  type Printer = Num -> string

  function ItemRows(items: seq<LineItem>, show: Printer): (rows: seq<seq<string>>)
    ensures |rows| == |items| && AllNonEmpty(rows)
    ensures forall i :: 0 <= i < |items| ==> rows[i] == [items[i].description, show(items[i].amount)]
  {
    seq(|items|, i requires 0 <= i < |items| => [items[i].description, show(items[i].amount)])
  }

  /** `exportLineItemsToCsv`: the header, then one record per item. */
  function LineItemsCsv(b: BillData, show: Printer): string {
    Render([["Description", "Amount"]] + ItemRows(b.lineItems, show))
  }

  /** The line-item export reads back as the header and, per item, its
      description and printed amount. */
  lemma LineItemsCsvReads(b: BillData, show: Printer)
    ensures var r := ReadCsv(LineItemsCsv(b, show));
            && r.Some? && |r.value| == 1 + |b.lineItems|
            && r.value[0] == ["Description", "Amount"]
            && forall i :: 0 <= i < |b.lineItems| ==> r.value[i + 1] == [b.lineItems[i].description, show(b.lineItems[i].amount)]
  {
    var rows := [["Description", "Amount"]] + ItemRows(b.lineItems, show);
    ReadRender(rows);
  }

  /** `line-items-<account>-<statement date>.csv`; a missing date prints
      as `undefined`. */
  function LineItemsFilename(b: BillData): (name: string)
    ensures StartsWith(name, "line-items-" + b.accountNumber + "-")
    ensures b.statementDate.Some? ==> name == "line-items-" + b.accountNumber + "-" + b.statementDate.value + ".csv"
    ensures b.statementDate.None? ==> name == "line-items-" + b.accountNumber + "-undefined.csv"
  {
    var date := if b.statementDate.Some? then b.statementDate.value else "undefined";
    "line-items-" + b.accountNumber + "-" + date + ".csv"
  }

  // ---- the usage export ----

  function UsageHeader(c: UsageChartData, years: seq<string>): (h: seq<string>)
    ensures |h| == 1 + |years| && h[0] == "Month"
    ensures forall j :: 0 <= j < |years| ==> h[j + 1] == c.unit + " " + years[j]
  {
    ["Month"] + seq(|years|, j requires 0 <= j < |years| => c.unit + " " + years[j])
  }

  /** The printed value for `year`, or empty when the point has none. */
  function UsageCell(p: UsageDataPoint, year: string, show: Printer): string {
    match UsageTable.ValueFor(p.usage, year)
    case Some(v) => show(v)
    case None => ""
  }

  function UsageRow(p: UsageDataPoint, years: seq<string>, show: Printer): (row: seq<string>)
    ensures |row| == 1 + |years| && row[0] == p.month
    ensures forall j :: 0 <= j < |years| ==> row[j + 1] == UsageCell(p, years[j], show)
  {
    [p.month] + seq(|years|, j requires 0 <= j < |years| => UsageCell(p, years[j], show))
  }

  function UsageRows(c: UsageChartData, years: seq<string>, show: Printer): (rows: seq<seq<string>>)
    ensures |rows| == |c.data| && AllNonEmpty(rows)
    ensures forall i :: 0 <= i < |c.data| ==> rows[i] == UsageRow(c.data[i], years, show)
  {
    seq(|c.data|, i requires 0 <= i < |c.data| => UsageRow(c.data[i], years, show))
  }

  /** `exportUsageDataToCsv`: a header of `Month` and one column per year,
      then one record per point. */
  function UsageCsv(c: UsageChartData, show: Printer): string {
    var years := UsageTable.Years(c);
    Render([UsageHeader(c, years)] + UsageRows(c, years, show))
  }

  /** The usage export reads back as the header and one record per point,
      each with the month and then, per column year, the printed value of
      the point's first entry for that year or an empty cell. */
  lemma UsageCsvReads(c: UsageChartData, show: Printer)
    ensures var years := UsageTable.Years(c);
            var r := ReadCsv(UsageCsv(c, show));
            && r.Some? && |r.value| == 1 + |c.data|
            && r.value[0] == UsageHeader(c, years)
            && forall i :: 0 <= i < |c.data| ==>
                 && |r.value[i + 1]| == 1 + |years| && r.value[i + 1][0] == c.data[i].month
                 && forall j :: 0 <= j < |years| ==>
                      r.value[i + 1][j + 1] == (if UsageTable.HasYear(c.data[i].usage, years[j]) then show(UsageTable.ValueFor(c.data[i].usage, years[j]).value) else "")
  {
    var years := UsageTable.Years(c);
    var rows := [UsageHeader(c, years)] + UsageRows(c, years, show);
    ReadRender(rows);
    assert forall i :: 0 <= i < |c.data| ==> rows[i + 1] == UsageRow(c.data[i], years, show);
  }

  /** Runs of white space in a title, each turned into one `_`. */
  function CollapseSpace(t: string): (r: string)
    ensures forall i :: 0 <= i < |r| ==> !IsJsSpace(r[i])
    ensures |r| <= |t|
    decreases |t|
  {
    if |t| == 0 then ""
    else if IsJsSpace(t[0]) then "_" + CollapseSpace(NumParse.SkipSpace(t[1..]))
    else [t[0]] + CollapseSpace(t[1..])
  }

  /** A title without white space is kept as it is. */
  lemma {:induction false} CollapseNoSpace(t: string)
    requires forall i :: 0 <= i < |t| ==> !IsJsSpace(t[i])
    ensures CollapseSpace(t) == t
    decreases |t|
  {
    if |t| > 0 {
      CollapseNoSpace(t[1..]);
      assert t == [t[0]] + t[1..];
    }
  }

  /** A word, one run of white space, then the rest: the word, one `_`,
      then the rest collapsed. */
  lemma {:induction false} CollapseRun(word: string, run: string, rest: string)
    requires forall i :: 0 <= i < |word| ==> !IsJsSpace(word[i])
    requires |run| > 0 && AllSpace(run)
    requires |rest| == 0 || !IsJsSpace(rest[0])
    ensures CollapseSpace(word + run + rest) == word + "_" + CollapseSpace(rest)
    decreases |word|
  {
    if |word| == 0 {
      assert word + run + rest == run + rest;
      assert (run + rest)[1..] == run[1..] + rest;
      SkipRun(run[1..], rest);
    } else {
      assert (word + run + rest)[1..] == word[1..] + run + rest;
      CollapseRun(word[1..], run, rest);
      assert word == [word[0]] + word[1..];
    }
  }

  lemma {:induction false} SkipRun(run: string, rest: string)
    requires AllSpace(run)
    requires |rest| == 0 || !IsJsSpace(rest[0])
    ensures NumParse.SkipSpace(run + rest) == rest
    decreases |run|
  {
    if |run| == 0 {
      assert run + rest == rest;
    } else {
      assert (run + rest)[1..] == run[1..] + rest;
      SkipRun(run[1..], rest);
    }
  }

  /** `usage-data-<title>.csv` with each run of white space in the title
      turned into `_`. */
  function UsageFilename(c: UsageChartData): (name: string)
    ensures StartsWith(name, "usage-data-")
    ensures forall i :: 0 <= i < |name| ==> !IsJsSpace(name[i])
    ensures name == "usage-data-" + CollapseSpace(c.title) + ".csv"
  {
    "usage-data-" + CollapseSpace(c.title) + ".csv"
  }

  /** A title without white space names the file as it is. */
  lemma UsageFilenamePlain(c: UsageChartData)
    requires forall i :: 0 <= i < |c.title| ==> !IsJsSpace(c.title[i])
    ensures UsageFilename(c) == "usage-data-" + c.title + ".csv"
  {
    CollapseNoSpace(c.title);
  }

  /** A title of a word, a run of white space and the rest names the file
      with one `_` for the whole run. */
  lemma UsageFilenameRun(c: UsageChartData, word: string, run: string, rest: string)
    requires c.title == word + run + rest
    requires forall i :: 0 <= i < |word| ==> !IsJsSpace(word[i])
    requires |run| > 0 && AllSpace(run)
    requires |rest| == 0 || !IsJsSpace(rest[0])
    ensures UsageFilename(c) == "usage-data-" + word + "_" + CollapseSpace(rest) + ".csv"
  {
    var x := CollapseSpace(rest);
    CollapseRun(word, run, rest);
    assert CollapseSpace(c.title) == word + "_" + x;
    AppendAssoc5("usage-data-", word, "_", x, ".csv");
  }

  lemma AppendAssoc5(a: string, b: string, c: string, d: string, e: string)
    ensures a + (b + c + d) + e == a + b + c + d + e
  {
  }
}
