/** The usage-chart repair of the normaliser: charts without data are
    dropped, a non-array `data` is emptied, charts already in the nested
    month → [year, value] shape are kept as they are, and "flattened" charts
    (one row per text such as `"Oct, 2017"`) are regrouped by month token
    in first-seen order. */
module Charts {
  import opened Wrappers
  import opened Text
  import opened Json
  import opened NumParse
  import opened MonthLabel

  /** A flat row that survives the skip tests and the text pattern. */
  datatype Row = Row(month: string, year: string, value: Num)

  /** One entry of the month map: the month token and its usage entries
      in row order. */
  datatype MonthGroup = MonthGroup(month: string, usage: seq<(string, Num)>)

  /** `d.month && Array.isArray(d.usage)`: a point already in nested shape. */
  predicate IsNestedPoint(d: Json) {
    Present(Get(d, "month")) && Get(d, "usage").Some? && Get(d, "usage").value.Arr?
  }

  /** `chart.data.every(...)`: true for an empty array. */
  predicate AllNested(ds: seq<Json>) {
    forall i :: 0 <= i < |ds| ==> IsNestedPoint(ds[i])
  }

  /** What one flat point contributes: nothing when its month is not a
      non-empty string, when it has no `value`, or when its text does not
      match; otherwise the month token, the year and the value coerced by
      `parseFloat(String(value)) || 0`. */
  function RowOf(p: Json): (r: Option<Row>)
    ensures r.Some? <==>
      (exists text :: Get(p, "month") == Some(Str(text)) && |text| > 0 && MatchLabel(text).Some?)
      && Get(p, "value").Some?
    ensures r.Some? ==> MatchLabel(Get(p, "month").value.s) == Some((r.value.month, r.value.year))
    ensures r.Some? ==> r.value.value == LooseNumber(Get(p, "value").value) && !r.value.value.NaN?
  {
    match Get(p, "month")
    case Some(Str(text)) =>
      if |text| == 0 || Get(p, "value").None? then None
      else
        (match MatchLabel(text)
         case None => None
         case Some((m, y)) => Some(Row(m, y, LooseNumber(Get(p, "value").value))))
    case _ => None
  }

  /** The rows of a flat chart, in data order. */
  function Rows(ps: seq<Json>): (rs: seq<Row>)
    ensures |rs| <= |ps|
    decreases |ps|
  {
    if |ps| == 0 then []
    else
      var rs := Rows(ps[..|ps| - 1]);
      match RowOf(ps[|ps| - 1])
      case Some(r) => rs + [r]
      case None => rs
  }

  /** Keep the `Some` results of `f` over `xs`, in order. */
  function FilterMap<T, U>(f: T -> Option<U>, xs: seq<T>): seq<U>
    decreases |xs|
  {
    if |xs| == 0 then []
    else
      var y := f(xs[|xs| - 1]);
      FilterMap(f, xs[..|xs| - 1]) + (if y.Some? then [y.value] else [])
  }

  lemma {:induction false} FilterMapAppend<T, U>(f: T -> Option<U>, a: seq<T>, b: seq<T>)
    ensures FilterMap(f, a + b) == FilterMap(f, a) + FilterMap(f, b)
    decreases |b|
  {
    if |b| == 0 {
      assert a + b == a;
    } else {
      var bf := b[..|b| - 1];
      assert (a + b)[..|a + b| - 1] == a + bf;
      assert (a + b)[|a + b| - 1] == b[|b| - 1];
      FilterMapAppend(f, a, bf);
    }
  }

  /** `Rows` is the filter-and-map of `RowOf` over the points. */
  lemma {:induction false} RowsAreFilterMap(ps: seq<Json>)
    ensures Rows(ps) == FilterMap(RowOf, ps)
    decreases |ps|
  {
    if |ps| > 0 { RowsAreFilterMap(ps[..|ps| - 1]); }
  }

  /** The points of `a + b` give the rows of `a` followed by the rows of
      `b`, and one point gives its own row or nothing: together, the rows
      keep data order and multiplicity. */
  lemma RowsAppend(a: seq<Json>, b: seq<Json>)
    ensures Rows(a + b) == Rows(a) + Rows(b)
  {
    RowsAreFilterMap(a + b);
    RowsAreFilterMap(a);
    RowsAreFilterMap(b);
    FilterMapAppend(RowOf, a, b);
  }

  lemma RowsOne(p: Json)
    ensures Rows([p]) == if RowOf(p).Some? then [RowOf(p).value] else []
  {
    assert [p][..0] == [];
  }

  // ---- the month map ----

  /** The months of a list of groups. */
  function MonthsOf(gs: seq<MonthGroup>): (ms: seq<string>)
    ensures |ms| == |gs| && forall i :: 0 <= i < |gs| ==> ms[i] == gs[i].month
  {
    seq(|gs|, i requires 0 <= i < |gs| => gs[i].month)
  }

  /** The months of a month map are distinct: they are its keys. */
  predicate DistinctMonths(gs: seq<MonthGroup>) {
    forall i, j :: 0 <= i < j < |gs| ==> gs[i].month != gs[j].month
  }

  /** Where month `m` sits in the month map. */
  function GroupIndex(gs: seq<MonthGroup>, m: string): (k: nat)
    requires m in MonthsOf(gs)
    ensures k < |gs| && gs[k].month == m
    decreases |gs|
  {
    if gs[0].month == m then 0
    else
      assert MonthsOf(gs) == [gs[0].month] + MonthsOf(gs[1..]);
      1 + GroupIndex(gs[1..], m)
  }

  /** `monthMap[month]` created on first sight, then the row's `{year,
      value}` pushed onto it. Objects keep string keys in insertion order,
      and a month token is never an integer-like key, so the groups stay in
      the order months were first seen. */
  function AddRow(gs: seq<MonthGroup>, r: Row): (gs': seq<MonthGroup>)
    requires DistinctMonths(gs)
    ensures DistinctMonths(gs')
    ensures r.month in MonthsOf(gs) ==> |gs'| == |gs|
    ensures r.month !in MonthsOf(gs) ==> gs' == gs + [MonthGroup(r.month, [(r.year, r.value)])]
    ensures forall i :: 0 <= i < |gs| ==>
      gs'[i] == if gs[i].month == r.month then MonthGroup(r.month, gs[i].usage + [(r.year, r.value)]) else gs[i]
  {
    if r.month in MonthsOf(gs) then
      var k := GroupIndex(gs, r.month);
      gs[k := MonthGroup(r.month, gs[k].usage + [(r.year, r.value)])]
    else
      gs + [MonthGroup(r.month, [(r.year, r.value)])]
  }

  /** The month map after every row, built row by row. */
  function GroupRows(rs: seq<Row>): (gs: seq<MonthGroup>)
    ensures DistinctMonths(gs)
    decreases |rs|
  {
    if |rs| == 0 then [] else AddRow(GroupRows(rs[..|rs| - 1]), rs[|rs| - 1])
  }

  // ---- an independent description of the grouping ----

  /** The distinct elements of `xs`, each where it first occurs. */
  function FirstSeen(xs: seq<string>): (ys: seq<string>)
    ensures forall x :: x in ys <==> x in xs
    ensures forall i, j :: 0 <= i < j < |ys| ==> ys[i] != ys[j]
    decreases |xs|
  {
    if |xs| == 0 then []
    else
      var ys := FirstSeen(xs[..|xs| - 1]);
      assert forall x :: x in xs <==> x in xs[..|xs| - 1] || x == xs[|xs| - 1] by {
        assert xs == xs[..|xs| - 1] + [xs[|xs| - 1]];
      }
      if xs[|xs| - 1] in ys then ys else ys + [xs[|xs| - 1]]
  }

  /** `ys` lists elements in the order of first sight in `xs`: an element
      listed before another occurs in `xs` before every occurrence of the
      later one. */
  predicate InSightOrder(xs: seq<string>, ys: seq<string>) {
    forall i, j, k :: 0 <= i < j < |ys| && 0 <= k < |xs| && xs[k] == ys[j] ==> ys[i] in xs[..k]
  }

  /** The order of first sight: an element listed before another occurs in
      `xs` before every occurrence of the later one. */
  lemma {:induction false} FirstSeenOrder(xs: seq<string>)
    ensures InSightOrder(xs, FirstSeen(xs))
    decreases |xs|
  {
    if |xs| > 0 {
      var n := |xs| - 1;
      var front := xs[..n];
      FirstSeenOrder(front);
      var ys := FirstSeen(xs);
      var zs := FirstSeen(front);
      forall i, j, k | 0 <= i < j < |ys| && 0 <= k < |xs| && xs[k] == ys[j]
        ensures ys[i] in xs[..k]
      {
        if xs[n] in zs {
          assert ys == zs;
          if k < n {
            assert front[k] == xs[k];
            assert front[..k] == xs[..k];
          } else {
            assert zs[j] in front;
            var k' :| 0 <= k' < n && front[k'] == zs[j];
            assert zs[i] in front[..k'];
            var w :| 0 <= w < k' && front[w] == zs[i];
            assert xs[..k][w] == zs[i];
          }
        } else {
          assert ys == zs + [xs[n]];
          assert xs[n] !in front;
          assert j < |zs| || k == n by {
            assert forall v :: 0 <= v < n ==> xs[v] == front[v];
          }
          if j < |zs| {
            assert ys[i] == zs[i] && ys[j] == zs[j] && zs[j] in front;
            assert k < n;
            assert front[k] == xs[k];
            assert front[..k] == xs[..k];
          } else {
            assert ys[i] == zs[i] && zs[i] in front;
            assert front == xs[..k];
          }
        }
      }
    }
  }

  /** The months of the rows, in row order. */
  function RowMonths(rs: seq<Row>): (ms: seq<string>)
    ensures |ms| == |rs| && forall i :: 0 <= i < |rs| ==> ms[i] == rs[i].month
  {
    seq(|rs|, i requires 0 <= i < |rs| => rs[i].month)
  }

  /** The year/value pairs of the rows for month `m`, in row order. */
  function UsageFor(rs: seq<Row>, m: string): (us: seq<(string, Num)>)
    ensures |us| <= |rs|
    decreases |rs|
  {
    if |rs| == 0 then []
    else
      var r := rs[|rs| - 1];
      UsageFor(rs[..|rs| - 1], m) + (if r.month == m then [(r.year, r.value)] else [])
  }

  /** The grouping as a specification: one group per distinct month, in
      first-seen order, holding exactly the rows of that month in order. */
  predicate GroupedAs(gs: seq<MonthGroup>, rs: seq<Row>) {
    var ms := FirstSeen(RowMonths(rs));
    |gs| == |ms| && forall i :: 0 <= i < |gs| ==> gs[i] == MonthGroup(ms[i], UsageFor(rs, ms[i]))
  }

  lemma {:induction false} UsageForAbsent(rs: seq<Row>, m: string)
    requires m !in RowMonths(rs)
    ensures UsageFor(rs, m) == []
    decreases |rs|
  {
    if |rs| > 0 {
      assert RowMonths(rs[..|rs| - 1]) == RowMonths(rs)[..|rs| - 1];
      UsageForAbsent(rs[..|rs| - 1], m);
    }
  }

  lemma MonthsOfGrouped(gs: seq<MonthGroup>, rs: seq<Row>)
    requires GroupedAs(gs, rs)
    ensures MonthsOf(gs) == FirstSeen(RowMonths(rs))
  {
  }

  /** Adding one row keeps the grouping description true. */
  lemma AddRowGrouped(gs: seq<MonthGroup>, rs: seq<Row>, r: Row)
    requires GroupedAs(gs, rs)
    ensures GroupedAs(AddRow(gs, r), rs + [r])
  {
    var rs' := rs + [r];
    assert rs'[..|rs'| - 1] == rs;
    assert RowMonths(rs') == RowMonths(rs) + [r.month];
    assert RowMonths(rs')[..|rs'| - 1] == RowMonths(rs);
    var ms := FirstSeen(RowMonths(rs));
    var ms' := FirstSeen(RowMonths(rs'));
    MonthsOfGrouped(gs, rs);
    var gs' := AddRow(gs, r);
    forall m ensures UsageFor(rs', m) == UsageFor(rs, m) + (if r.month == m then [(r.year, r.value)] else []) {
    }
    if r.month in ms {
      assert ms' == ms;
      forall i | 0 <= i < |gs'| ensures gs'[i] == MonthGroup(ms'[i], UsageFor(rs', ms'[i])) {
        if gs[i].month == r.month {
          assert forall j :: 0 <= j < i ==> gs[j].month != r.month;
        }
      }
    } else {
      assert ms' == ms + [r.month];
      UsageForAbsent(rs, r.month);
      forall i | 0 <= i < |gs'| ensures gs'[i] == MonthGroup(ms'[i], UsageFor(rs', ms'[i])) {
        if i < |gs| {
          assert gs[i].month != r.month by { assert gs[i].month == ms[i]; }
        }
      }
    }
  }

  lemma AddLastGrouped(gs: seq<MonthGroup>, rs: seq<Row>)
    requires |rs| > 0 && GroupedAs(gs, rs[..|rs| - 1])
    ensures GroupedAs(AddRow(gs, rs[|rs| - 1]), rs)
  {
    AddRowGrouped(gs, rs[..|rs| - 1], rs[|rs| - 1]);
    assert rs[..|rs| - 1] + [rs[|rs| - 1]] == rs;
  }

  /** The month map holds one group per distinct month token, in the order
      tokens first appear, and each group holds every row of its month in
      row order: rows are never merged or de-duplicated, even when a
      month-year pair repeats. */
  lemma {:induction false} GroupRowsSpec(rs: seq<Row>)
    ensures GroupedAs(GroupRows(rs), rs)
    decreases |rs|
  {
    if |rs| > 0 {
      var front := rs[..|rs| - 1];
      GroupRowsSpec(front);
      AddLastGrouped(GroupRows(front), rs);
    }
  }

  // ---- the repaired chart ----

  /** `{ month, usage: [{ year, value }, ...] }`. */
  function GroupJson(g: MonthGroup): Json {
    Obj([("month", Str(g.month)),
         ("usage", Arr(seq(|g.usage|, i requires 0 <= i < |g.usage| =>
            Obj([("year", Str(g.usage[i].0)), ("value", Number(g.usage[i].1))]))))])
  }

  /** `Object.values(monthMap)` as JSON. */
  function GroupsJson(gs: seq<MonthGroup>): (ds: seq<Json>)
    ensures |ds| == |gs| && forall i :: 0 <= i < |gs| ==> ds[i] == GroupJson(gs[i])
  {
    seq(|gs|, i requires 0 <= i < |gs| => GroupJson(gs[i]))
  }

  /** A regrouped point is in nested shape when its token is not empty,
      which the text pattern guarantees. */
  lemma GroupJsonNested(g: MonthGroup)
    requires |g.month| > 0
    ensures IsNestedPoint(GroupJson(g))
  {
    var fs := GroupJson(g).fields;
    assert fs[0].0 == "month";
    assert Lookup(fs, "month") == Some(Str(g.month));
    assert fs[1].0 == "usage" && fs[0].0 != "usage";
    assert Lookup(fs, "usage") == Some(fs[1].1);
  }

  /** Every token of a regrouped month came out of the text pattern. */
  lemma {:induction false} GroupMonthsMatched(rs: seq<Row>, i: nat)
    requires forall k :: 0 <= k < |rs| ==> |rs[k].month| >= 3
    requires i < |GroupRows(rs)|
    ensures |GroupRows(rs)[i].month| >= 3
  {
    GroupRowsSpec(rs);
    var ms := FirstSeen(RowMonths(rs));
    assert GroupRows(rs)[i].month == ms[i];
    assert ms[i] in RowMonths(rs);
  }

  lemma {:induction false} RowsMatched(ps: seq<Json>)
    ensures forall k :: 0 <= k < |Rows(ps)| ==> |Rows(ps)[k].month| >= 3
    decreases |ps|
  {
    if |ps| > 0 { RowsMatched(ps[..|ps| - 1]); }
  }

  /** `typeof chart === 'object' && chart !== null && chart.data`. */
  predicate KeepChart(c: Json) {
    IsObjectLike(c) && Present(Get(c, "data"))
  }

  lemma KeptChartIsObject(c: Json)
    ensures KeepChart(c) ==> c.Obj?
  {
    NamedFieldMeansObject(c, "data");
  }

  /** A chart in final shape: an object whose `data` is an array of
      nested points. */
  predicate Repaired(c: Json) {
    c.Obj? && Get(c, "data").Some? && Get(c, "data").value.Arr? && AllNested(Get(c, "data").value.items)
  }

  /** The points of a flat chart, regrouped. */
  function Regroup(ps: seq<Json>): (ds: seq<Json>)
    ensures AllNested(ds)
    ensures ds == GroupsJson(GroupRows(Rows(ps)))
  {
    var rs := Rows(ps);
    var gs := GroupRows(rs);
    var ds := GroupsJson(gs);
    assert AllNested(ds) by {
      forall i | 0 <= i < |ds| ensures IsNestedPoint(ds[i]) {
        RowsMatched(ps);
        GroupMonthsMatched(rs, i);
        GroupJsonNested(gs[i]);
      }
    }
    ds
  }

  /** Regrouping in terms of the grouping description: one point per
      distinct month token of the flat rows, in first-seen order, whose
      usage lists every row of that month in data order. */
  lemma RegroupSpec(ps: seq<Json>)
    ensures var ms := FirstSeen(RowMonths(Rows(ps)));
      && |Regroup(ps)| == |ms|
      && forall i :: 0 <= i < |ms| ==> Regroup(ps)[i] == GroupJson(MonthGroup(ms[i], UsageFor(Rows(ps), ms[i])))
  {
    GroupRowsSpec(Rows(ps));
  }

  /** Replacing `data` with an array of nested points gives a chart in
      final shape that keeps every other field. */
  lemma WithData(fs: seq<(string, Json)>, ds: seq<Json>)
    requires AllNested(ds)
    ensures Repaired(Obj(SetField(fs, "data", Arr(ds))))
    ensures Get(Obj(SetField(fs, "data", Arr(ds))), "data") == Some(Arr(ds))
    ensures forall k :: k != "data" ==> Get(Obj(SetField(fs, "data", Arr(ds))), k) == Get(Obj(fs), k)
  {
  }

  /** The repair of one kept chart (which is an object: arrays have no
      `data`): a non-array `data` becomes `[]`, a chart whose points are all
      nested is returned as it is, and any other chart has its points
      regrouped by month. Every other field of the chart is kept. */
  function RepairChart(c: Json): (r: Json)
    requires KeepChart(c)
    ensures Repaired(r)
    ensures forall k :: k != "data" ==> Get(r, k) == Get(c, k)
    ensures Repaired(c) ==> r == c
    ensures !Get(c, "data").value.Arr? ==> Get(r, "data") == Some(Arr([]))
    ensures Get(c, "data").value.Arr? && AllNested(Get(c, "data").value.items) ==> r == c
    ensures Get(c, "data").value.Arr? && !AllNested(Get(c, "data").value.items) ==>
      Get(r, "data") == Some(Arr(Regroup(Get(c, "data").value.items)))
  {
    KeptChartIsObject(c);
    var data := Get(c, "data").value;
    if !data.Arr? then
      WithData(c.fields, []);
      Obj(SetField(c.fields, "data", Arr([])))
    else if AllNested(data.items) then c
    else
      var ds := Regroup(data.items);
      WithData(c.fields, ds);
      Obj(SetField(c.fields, "data", Arr(ds)))
  }

  /** A chart in final shape is kept by the filter. */
  lemma RepairedIsKept(c: Json)
    requires Repaired(c)
    ensures KeepChart(c)
  {
  }

  /** A repaired chart is in final shape: repairing it again changes
      nothing. */
  lemma RepairChartIdempotent(c: Json)
    requires KeepChart(c)
    ensures KeepChart(RepairChart(c)) && RepairChart(RepairChart(c)) == RepairChart(c)
  {
    RepairedIsKept(RepairChart(c));
  }

  /** The `filter` then `map` over the chart array. */
  function RepairCharts(cs: seq<Json>): (rs: seq<Json>)
    ensures |rs| <= |cs|
    ensures forall i :: 0 <= i < |rs| ==> Repaired(rs[i])
    decreases |cs|
  {
    if |cs| == 0 then []
    else
      var rest := RepairCharts(cs[1..]);
      if KeepChart(cs[0]) then [RepairChart(cs[0])] + rest else rest
  }

  /** The pass is a filter followed by a map: the charts of `a + b` give
      the repaired charts of `a` followed by those of `b`, in order, and one
      chart is repaired when the filter keeps it and dropped otherwise. */
  lemma {:induction false} RepairChartsAppend(a: seq<Json>, b: seq<Json>)
    ensures RepairCharts(a + b) == RepairCharts(a) + RepairCharts(b)
    decreases |a|
  {
    if |a| == 0 {
      assert a + b == b;
    } else {
      assert (a + b)[0] == a[0];
      assert (a + b)[1..] == a[1..] + b;
      RepairChartsAppend(a[1..], b);
    }
  }

  lemma RepairChartsOne(c: Json)
    ensures RepairCharts([c]) == if KeepChart(c) then [RepairChart(c)] else []
  {
    assert [c][1..] == [];
  }

  /** The chart pass is idempotent: on its own output it changes nothing. */
  lemma {:induction false} RepairChartsIdempotent(cs: seq<Json>)
    ensures RepairCharts(RepairCharts(cs)) == RepairCharts(cs)
    decreases |cs|
  {
    if |cs| > 0 {
      RepairChartsIdempotent(cs[1..]);
      if KeepChart(cs[0]) {
        RepairChartIdempotent(cs[0]);
        var rs := RepairCharts(cs);
        assert rs[1..] == RepairCharts(cs[1..]);
      }
    }
  }
}
