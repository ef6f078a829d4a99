/** The bill view: replacing one chart after a table edit, and the text
    shown for an info field and for the service period. */
module Display {
  import opened Wrappers
  import opened Json
  import opened Types
  import UsageTable
  import History

  /** `handleTableUpdate(chartIndex, chart)`: a copy of the record whose
      chart at `chartIndex` is `chart`. The index comes from enumerating the
      record's own charts, so it is in range. */
  function TableUpdate(b: BillData, chartIndex: nat, chart: UsageChartData): (r: BillData)
    requires chartIndex < |b.usageCharts|
    ensures |r.usageCharts| == |b.usageCharts| && r.usageCharts[chartIndex] == chart
    ensures forall k :: 0 <= k < |b.usageCharts| && k != chartIndex ==> r.usageCharts[k] == b.usageCharts[k]
    ensures r.(usageCharts := b.usageCharts) == b
  {
    b.(usageCharts := b.usageCharts[chartIndex := chart])
  }

  /** The copy taken through JSON text is the record itself. */
  lemma DeepCopyIsIdentity(b: BillData)
    ensures BillFromJson(BillToJson(b)) == Some(b)
  {
    BillRoundTrip(b);
  }

  /** Writing back the chart that is there changes nothing, and of two
      writes to one chart the later wins. */
  lemma TableUpdateLaws(b: BillData, i: nat, c1: UsageChartData, c2: UsageChartData)
    requires i < |b.usageCharts|
    ensures TableUpdate(b, i, b.usageCharts[i]) == b
    ensures TableUpdate(TableUpdate(b, i, c1), i, c2) == TableUpdate(b, i, c2)
  {
    assert b.usageCharts[i := b.usageCharts[i]] == b.usageCharts;
    assert b.usageCharts[i := c1][i := c2] == b.usageCharts[i := c2];
  }

  /** A cell typed into the table of chart `i`: the record the view hands
      on, or `None` when no point has that month. */
  function EditChartCell(b: BillData, i: nat, month: string, year: string, text: string): (r: Option<BillData>)
    requires i < |b.usageCharts|
    ensures r.None? <==> UsageTable.EditCell(b.usageCharts[i], month, year, text).None?
    ensures r.Some? ==> r.value.id == b.id && |r.value.usageCharts| == |b.usageCharts|
  {
    match UsageTable.EditCell(b.usageCharts[i], month, year, text)
    case None => None
    case Some(c) => Some(TableUpdate(b, i, c))
  }

  /** After the edit the cell shows the value typed, every other cell of
      that chart shows what it showed, and the other charts are the same. */
  lemma EditChartCellReads(b: BillData, i: nat, month: string, year: string, text: string)
    requires i < |b.usageCharts|
    requires exists k :: 0 <= k < |b.usageCharts[i].data| && b.usageCharts[i].data[k].month == month
    ensures var r := EditChartCell(b, i, month, year, text);
            var c := b.usageCharts[i];
            var m := UsageTable.FindMonth(c.data, month).value;
            && r.Some?
            && UsageTable.CellAt(r.value.usageCharts[i], m, year) == Some(UsageTable.CellValue(text))
            && (forall k, y :: 0 <= k < |c.data| && (k != m || y != year) ==>
                  UsageTable.CellAt(r.value.usageCharts[i], k, y) == UsageTable.CellAt(c, k, y))
            && forall j :: 0 <= j < |b.usageCharts| && j != i ==> r.value.usageCharts[j] == b.usageCharts[j]
  {
    UsageTable.EditCellReads(b.usageCharts[i], month, year, text);
  }

  /** The edited record goes to the app as an update: it becomes current,
      and every history record with its id is replaced by it. */
  lemma EditReachesHistory(s: History.AppState, i: nat, month: string, year: string, text: string)
    requires s.billData.Some? && i < |s.billData.value.usageCharts|
    requires EditChartCell(s.billData.value, i, month, year, text).Some?
    ensures var e := EditChartCell(s.billData.value, i, month, year, text).value;
            var r := History.Update(s, e);
            && r.billData == Some(e)
            && forall k :: 0 <= k < |s.history| ==>
                 r.history[k] == if s.history[k].id == s.billData.value.id then e else s.history[k]
  {
  }

  /** What an info field shows: its text, or `N/A` when missing or empty. */
  function InfoFieldText(value: Option<string>): (r: string)
    ensures r != ""
    ensures value.Some? && value.value != "" ==> r == value.value
    ensures value.None? || value.value == "" ==> r == "N/A"
  {
    if value.Some? && value.value != "" then value.value else "N/A"
  }

  /** A field whose text is literally `N/A` looks the same as a missing one. */
  lemma InfoFieldAmbiguous()
    ensures InfoFieldText(Some("N/A")) == InfoFieldText(None) == InfoFieldText(Some(""))
  {
  }

  /** The service period: `start - end` when both dates are given and not
      empty, `N/A` otherwise. */
  function ServicePeriodLabel(b: BillData): (r: string)
    ensures r != ""
  {
    var start := b.servicePeriodStart;
    var end := b.servicePeriodEnd;
    if start.Some? && start.value != "" && end.Some? && end.value != "" then start.value + " - " + end.value
    else "N/A"
  }

  /** Both dates present: the label starts with the start date, ends with
      the end date and joins them with ` - `; otherwise it is `N/A`. */
  lemma ServicePeriodShape(b: BillData)
    ensures var r := ServicePeriodLabel(b);
            var start := b.servicePeriodStart;
            var end := b.servicePeriodEnd;
            if start.Some? && start.value != "" && end.Some? && end.value != "" then
              && |r| == |start.value| + 3 + |end.value|
              && r[..|start.value|] == start.value
              && r[|start.value|..|start.value| + 3] == " - "
              && r[|start.value| + 3..] == end.value
            else r == "N/A"
  {
  }

  /** The label is shown through an info field, which leaves it as it is. */
  lemma ServicePeriodShown(b: BillData)
    ensures InfoFieldText(Some(ServicePeriodLabel(b))) == ServicePeriodLabel(b)
  {
  }
}
