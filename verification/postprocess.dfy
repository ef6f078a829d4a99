/** `postProcessData`: the second pass over a sanitized object, turning the
    numbers the provider sent as strings into numbers. Every change is made
    in place in the source; here each level is rebuilt with the changed
    property written back at its own position. The sanitized object shares
    no sub-object between two of its fields, so writing in place and
    rebuilding give the same value. */
module PostProcess {
  import opened Wrappers
  import opened Text
  import opened Json
  import opened NumParse
  import Charts
  import Sanitize
  import Schema
  import Resolve

  /** A property name that is not an array index. */
  predicate IsName(k: string) {
    |k| > 0 && !IsDigit(k[0])
  }

  /** `typeof v[k] === 'string'`. */
  predicate HoldsString(v: Json, k: string) {
    Get(v, k).Some? && Get(v, k).value.Str?
  }

  /** `if (typeof v[k] === 'string') v[k] = parse(v[k])`. */
  function CoerceField(v: Json, k: string, parse: string -> Num): (r: Json)
    requires IsName(k)
    ensures HoldsString(v, k) ==> r.Obj? && v.Obj? && Get(r, k) == Some(Number(parse(Get(v, k).value.s)))
    ensures HoldsString(v, k) ==> |r.fields| == |v.fields|
    ensures !HoldsString(v, k) ==> r == v
    ensures forall k' :: k' != k ==> Get(r, k') == Get(v, k')
    ensures !HoldsString(r, k)
  {
    NamedFieldMeansObject(v, k);
    match Get(v, k)
    case Some(Str(s)) => Obj(SetField(v.fields, k, Number(parse(s))))
    case _ => v
  }

  /** `u.value = parseFloat(u.value)` over one point's usage entries. */
  function CoerceUsage(us: seq<Json>): (r: seq<Json>)
    ensures |r| == |us|
    ensures forall i :: 0 <= i < |us| ==> r[i] == CoerceField(us[i], "value", ParseFloat)
  {
    seq(|us|, i requires 0 <= i < |us| => CoerceField(us[i], "value", ParseFloat))
  }

  /** The usage entries of a point, when it has them as an array. */
  function EntriesOf(p: Json): seq<Json> {
    if Get(p, "usage").Some? && Get(p, "usage").value.Arr? then Get(p, "usage").value.items else []
  }

  /** No usage entry of the point still holds its value as a string. */
  predicate PointCoerced(p: Json) {
    Present(Get(p, "usage")) ==> forall i :: 0 <= i < |EntriesOf(p)| ==> !HoldsString(EntriesOf(p)[i], "value")
  }

  /** A point the pass reads without a TypeError: not null, and a truthy
      `usage` is an array of non-null entries. */
  predicate PointSafe(p: Json) {
    p != Null &&
    (Present(Get(p, "usage")) ==>
      Get(p, "usage").value.Arr? && forall i :: 0 <= i < |Get(p, "usage").value.items| ==> Get(p, "usage").value.items[i] != Null)
  }

  /** `if (point.usage) point.usage.forEach(...)`. */
  function CoercePoint(p: Json): (r: Json)
    requires PointSafe(p)
    ensures PointSafe(r) && PointCoerced(r)
    ensures Present(Get(r, "usage")) <==> Present(Get(p, "usage"))
    ensures forall k :: k != "usage" ==> Get(r, k) == Get(p, k)
    ensures PointCoerced(p) ==> r == p
    ensures p.Obj? ==> r.Obj?
    ensures Present(Get(p, "usage")) ==> Get(r, "usage") == Some(Arr(CoerceUsage(Get(p, "usage").value.items)))
  {
    if Present(Get(p, "usage")) then
      PointRewrite(p);
      PointUnchanged(p);
      WithUsage(p)
    else p
  }

  /** The point with its usage entries coerced. */
  function WithUsage(p: Json): Json
    requires PointSafe(p) && Present(Get(p, "usage"))
  {
    NamedFieldMeansObject(p, "usage");
    Obj(SetField(p.fields, "usage", Arr(CoerceUsage(Get(p, "usage").value.items))))
  }

  lemma PointRewrite(p: Json)
    requires PointSafe(p) && Present(Get(p, "usage"))
    ensures var r := WithUsage(p);
      && r.Obj? && PointSafe(r) && PointCoerced(r)
      && Present(Get(r, "usage"))
      && Get(r, "usage") == Some(Arr(CoerceUsage(Get(p, "usage").value.items)))
      && (forall k :: k != "usage" ==> Get(r, k) == Get(p, k))
  {
    NamedFieldMeansObject(p, "usage");
    var us := Get(p, "usage").value.items;
    var us' := CoerceUsage(us);
    var r := WithUsage(p);
    assert r == Obj(SetField(p.fields, "usage", Arr(us')));
    Rewrite(p.fields, "usage", us, us');
    CoercedUsageField(r, us);
  }

  /** A point whose `usage` holds the coerced entries of a list without
      nulls is safe and coerced. */
  lemma CoercedUsageField(r: Json, us: seq<Json>)
    requires Get(r, "usage") == Some(Arr(CoerceUsage(us)))
    requires r.Obj? && forall i :: 0 <= i < |us| ==> us[i] != Null
    ensures PointSafe(r) && PointCoerced(r) && Present(Get(r, "usage"))
  {
    assert EntriesOf(r) == CoerceUsage(us);
    UsageCoerced(us);
  }

  lemma PointUnchanged(p: Json)
    requires PointSafe(p) && Present(Get(p, "usage"))
    ensures PointCoerced(p) ==> WithUsage(p) == p
  {
    if PointCoerced(p) {
      NamedFieldMeansObject(p, "usage");
      var us := Get(p, "usage").value.items;
      assert EntriesOf(p) == us;
      assert forall i :: 0 <= i < |us| ==> !HoldsString(us[i], "value");
      UsageFixed(us);
      Rewrite(p.fields, "usage", us, us);
    }
  }

  /** Facts about writing an array back under a property that held one. */
  lemma Rewrite(fs: seq<(string, Json)>, k: string, xs: seq<Json>, ys: seq<Json>)
    requires Get(Obj(fs), k) == Some(Arr(xs))
    ensures Get(Obj(SetField(fs, k, Arr(ys))), k) == Some(Arr(ys))
    ensures forall k' :: k' != k ==> Get(Obj(SetField(fs, k, Arr(ys))), k') == Get(Obj(fs), k')
    ensures ys == xs ==> SetField(fs, k, Arr(ys)) == fs
  {
    if ys == xs { SetFieldUnchanged(fs, k, Arr(xs)); }
  }

  lemma UsageCoerced(us: seq<Json>)
    ensures forall i :: 0 <= i < |us| ==> us[i] != Null ==> CoerceUsage(us)[i] != Null
    ensures forall i :: 0 <= i < |us| ==> !HoldsString(CoerceUsage(us)[i], "value")
  {
  }

  /** Entries holding no string value are left as they are. */
  lemma UsageFixed(us: seq<Json>)
    ensures (forall i :: 0 <= i < |us| ==> !HoldsString(us[i], "value")) ==> CoerceUsage(us) == us
  {
  }

  function CoercePoints(ps: seq<Json>): (r: seq<Json>)
    requires forall i :: 0 <= i < |ps| ==> PointSafe(ps[i])
    ensures |r| == |ps|
    ensures forall i :: 0 <= i < |ps| ==> r[i] == CoercePoint(ps[i])
  {
    seq(|ps|, i requires 0 <= i < |ps| => CoercePoint(ps[i]))
  }

  /** The points of a chart, when it has them as an array. */
  function PointsOf(c: Json): seq<Json> {
    if Get(c, "data").Some? && Get(c, "data").value.Arr? then Get(c, "data").value.items else []
  }

  /** No point of the chart still holds a string usage value. */
  predicate ChartCoerced(c: Json) {
    Present(Get(c, "data")) ==> forall i :: 0 <= i < |PointsOf(c)| ==> PointCoerced(PointsOf(c)[i])
  }

  /** A chart the pass reads without a TypeError: not null, and a truthy
      `data` is an array of safe points. */
  predicate ChartSafe(c: Json) {
    c != Null &&
    (Present(Get(c, "data")) ==>
      Get(c, "data").value.Arr? && forall i :: 0 <= i < |Get(c, "data").value.items| ==> PointSafe(Get(c, "data").value.items[i]))
  }

  /** `if (chart.data) chart.data.forEach(...)`. */
  function CoerceChart(c: Json): (r: Json)
    requires ChartSafe(c)
    ensures ChartSafe(r) && ChartCoerced(r)
    ensures Present(Get(r, "data")) <==> Present(Get(c, "data"))
    ensures forall k :: k != "data" ==> Get(r, k) == Get(c, k)
    ensures ChartCoerced(c) ==> r == c
    ensures c.Obj? ==> r.Obj?
    ensures Present(Get(c, "data")) ==> Get(r, "data") == Some(Arr(CoercePoints(Get(c, "data").value.items)))
  {
    if Present(Get(c, "data")) then
      ChartRewrite(c);
      ChartUnchanged(c);
      WithPoints(c)
    else c
  }

  /** The chart with its points coerced. */
  function WithPoints(c: Json): Json
    requires ChartSafe(c) && Present(Get(c, "data"))
  {
    NamedFieldMeansObject(c, "data");
    Obj(SetField(c.fields, "data", Arr(CoercePoints(Get(c, "data").value.items))))
  }

  lemma PointsCoerced(ps: seq<Json>)
    requires forall i :: 0 <= i < |ps| ==> PointSafe(ps[i])
    ensures forall i :: 0 <= i < |ps| ==> PointSafe(CoercePoints(ps)[i]) && PointCoerced(CoercePoints(ps)[i])
  {
  }

  lemma ChartRewrite(c: Json)
    requires ChartSafe(c) && Present(Get(c, "data"))
    ensures var r := WithPoints(c);
      && r.Obj? && ChartSafe(r) && ChartCoerced(r)
      && Present(Get(r, "data"))
      && Get(r, "data") == Some(Arr(CoercePoints(Get(c, "data").value.items)))
      && (forall k :: k != "data" ==> Get(r, k) == Get(c, k))
  {
    NamedFieldMeansObject(c, "data");
    var ps := Get(c, "data").value.items;
    var ps' := CoercePoints(ps);
    var r := WithPoints(c);
    assert r == Obj(SetField(c.fields, "data", Arr(ps')));
    Rewrite(c.fields, "data", ps, ps');
    assert Get(r, "data") == Some(Arr(ps'));
    assert PointsOf(r) == ps';
    PointsCoerced(ps);
    assert ChartCoerced(r);
    assert ChartSafe(r);
  }

  lemma ChartUnchanged(c: Json)
    requires ChartSafe(c) && Present(Get(c, "data"))
    ensures ChartCoerced(c) ==> WithPoints(c) == c
  {
    if ChartCoerced(c) {
      NamedFieldMeansObject(c, "data");
      var ps := Get(c, "data").value.items;
      assert PointsOf(c) == ps;
      assert forall i :: 0 <= i < |ps| ==> PointCoerced(ps[i]);
      PointsFixed(ps);
      Rewrite(c.fields, "data", ps, ps);
    }
  }

  /** Points with no string usage value are left as they are. */
  lemma PointsFixed(ps: seq<Json>)
    requires forall i :: 0 <= i < |ps| ==> PointSafe(ps[i])
    ensures (forall i :: 0 <= i < |ps| ==> PointCoerced(ps[i])) ==> CoercePoints(ps) == ps
  {
  }

  function CoerceCharts(cs: seq<Json>): (r: seq<Json>)
    requires forall i :: 0 <= i < |cs| ==> ChartSafe(cs[i])
    ensures |r| == |cs|
    ensures forall i :: 0 <= i < |cs| ==> r[i] == CoerceChart(cs[i])
  {
    seq(|cs|, i requires 0 <= i < |cs| => CoerceChart(cs[i]))
  }

  /** `item.amount = parseFloat(item.amount.replace(/[^0-9.-]+/g, ""))`
      over the line items. */
  function CoerceItems(xs: seq<Json>): (r: seq<Json>)
    ensures |r| == |xs|
    ensures forall i :: 0 <= i < |xs| ==> r[i] == CoerceField(xs[i], "amount", ParseCurrency)
  {
    seq(|xs|, i requires 0 <= i < |xs| => CoerceField(xs[i], "amount", ParseCurrency))
  }

  /** `lineItems` is read without a TypeError. */
  predicate ItemsSafe(m: map<string, Json>) {
    "lineItems" in m && Truthy(m["lineItems"]) ==>
      m["lineItems"].Arr? && forall i :: 0 <= i < |m["lineItems"].items| ==> m["lineItems"].items[i] != Null
  }

  /** `usageCharts` is read without a TypeError. */
  predicate ChartsSafe(m: map<string, Json>) {
    "usageCharts" in m && Truthy(m["usageCharts"]) ==>
      m["usageCharts"].Arr? && AllChartsSafe(m["usageCharts"].items)
  }

  predicate AllChartsSafe(cs: seq<Json>) {
    forall i :: 0 <= i < |cs| ==> ChartSafe(cs[i])
  }

  predicate AllChartsCoerced(cs: seq<Json>) {
    forall i :: 0 <= i < |cs| ==> ChartCoerced(cs[i])
  }

  /** The objects on which `postProcessData` returns normally: a truthy
      `lineItems` is an array without null items, and a truthy
      `usageCharts` is an array of safe charts. */
  predicate PostProcessSafe(m: map<string, Json>) {
    ItemsSafe(m) && ChartsSafe(m)
  }

  predicate TotalCoerced(m: map<string, Json>) {
    "totalCurrentCharges" in m ==> !m["totalCurrentCharges"].Str?
  }

  predicate ItemsCoerced(m: map<string, Json>) {
    "lineItems" in m && m["lineItems"].Arr? ==>
      forall i :: 0 <= i < |m["lineItems"].items| ==> !HoldsString(m["lineItems"].items[i], "amount")
  }

  predicate ChartsCoerced(m: map<string, Json>) {
    "usageCharts" in m && m["usageCharts"].Arr? ==> AllChartsCoerced(m["usageCharts"].items)
  }

  /** No place the pass rewrites still holds a string: the total is not a
      string, no line item's amount is, and no chart has a string usage
      value. */
  predicate Coerced(m: map<string, Json>) {
    TotalCoerced(m) && ItemsCoerced(m) && ChartsCoerced(m)
  }

  /** `if (typeof total === 'string') total = parseFloat(total.replace(...))`. */
  function CoerceTotal(m: map<string, Json>): (r: map<string, Json>)
    ensures r.Keys == m.Keys
    ensures r - {"totalCurrentCharges"} == m - {"totalCurrentCharges"}
    ensures TotalCoerced(r)
    ensures "totalCurrentCharges" in m && m["totalCurrentCharges"].Str? ==>
      r["totalCurrentCharges"] == Number(ParseCurrency(m["totalCurrentCharges"].s))
    ensures TotalCoerced(m) ==> r == m
  {
    if "totalCurrentCharges" in m && m["totalCurrentCharges"].Str? then
      UpdatePresent(m, "totalCurrentCharges", Number(ParseCurrency(m["totalCurrentCharges"].s)));
      m["totalCurrentCharges" := Number(ParseCurrency(m["totalCurrentCharges"].s))]
    else m
  }

  /** `if (parsedData.lineItems) parsedData.lineItems.forEach(...)`. */
  function CoerceLineItems(m: map<string, Json>): (r: map<string, Json>)
    requires ItemsSafe(m)
    ensures r.Keys == m.Keys
    ensures r - {"lineItems"} == m - {"lineItems"}
    ensures ItemsSafe(r) && ItemsCoerced(r)
    ensures "lineItems" in m && Truthy(m["lineItems"]) ==> r["lineItems"] == Arr(CoerceItems(m["lineItems"].items))
    ensures !("lineItems" in m && Truthy(m["lineItems"])) ==> r == m
  {
    if "lineItems" in m && Truthy(m["lineItems"]) then
      var xs := m["lineItems"].items;
      ItemsFacts(xs);
      UpdatePresent(m, "lineItems", Arr(CoerceItems(xs)));
      m["lineItems" := Arr(CoerceItems(xs))]
    else m
  }

  lemma LineItemsUnchanged(m: map<string, Json>)
    requires ItemsSafe(m)
    ensures ItemsCoerced(m) ==> CoerceLineItems(m) == m
  {
    if ItemsCoerced(m) && "lineItems" in m && Truthy(m["lineItems"]) {
      ItemsFacts(m["lineItems"].items);
    }
  }

  lemma ItemsFacts(xs: seq<Json>)
    ensures forall i :: 0 <= i < |xs| ==> xs[i] != Null ==> CoerceItems(xs)[i] != Null
    ensures forall i :: 0 <= i < |xs| ==> !HoldsString(CoerceItems(xs)[i], "amount")
    ensures (forall i :: 0 <= i < |xs| ==> !HoldsString(xs[i], "amount")) ==> CoerceItems(xs) == xs
  {
  }

  /** `if (parsedData.usageCharts) parsedData.usageCharts.forEach(...)`. */
  function CoerceUsageCharts(m: map<string, Json>): (r: map<string, Json>)
    requires ChartsSafe(m)
    ensures r.Keys == m.Keys
    ensures r - {"usageCharts"} == m - {"usageCharts"}
    ensures ChartsSafe(r) && ChartsCoerced(r)
    ensures "usageCharts" in m && Truthy(m["usageCharts"]) ==> r["usageCharts"] == Arr(CoerceCharts(m["usageCharts"].items))
    ensures !("usageCharts" in m && Truthy(m["usageCharts"])) ==> r == m
  {
    if "usageCharts" in m && Truthy(m["usageCharts"]) then
      var cs := m["usageCharts"].items;
      ChartsFacts(cs);
      var ys := CoerceCharts(cs);
      UpdatePresent(m, "usageCharts", Arr(ys));
      ChartsWritten(m, ys);
      m["usageCharts" := Arr(ys)]
    else m
  }

  /** Writing back a list of safe, coerced charts. */
  lemma ChartsWritten(m: map<string, Json>, ys: seq<Json>)
    requires AllChartsSafe(ys) && AllChartsCoerced(ys)
    ensures ChartsSafe(m["usageCharts" := Arr(ys)]) && ChartsCoerced(m["usageCharts" := Arr(ys)])
  {
  }

  lemma UsageChartsUnchanged(m: map<string, Json>)
    requires ChartsSafe(m)
    ensures ChartsCoerced(m) ==> CoerceUsageCharts(m) == m
  {
    if ChartsCoerced(m) && "usageCharts" in m && Truthy(m["usageCharts"]) {
      ChartsFacts(m["usageCharts"].items);
    }
  }

  lemma ChartsFacts(cs: seq<Json>)
    requires AllChartsSafe(cs)
    ensures AllChartsSafe(CoerceCharts(cs)) && AllChartsCoerced(CoerceCharts(cs))
    ensures AllChartsCoerced(cs) ==> CoerceCharts(cs) == cs
  {
  }

  /** The three places the pass rewrites. */
  const Rewritten: set<string> := {"totalCurrentCharges", "lineItems", "usageCharts"}

  /** `postProcessData(parsedData)`. */
  function PostProcess(m: map<string, Json>): (r: map<string, Json>)
    requires PostProcessSafe(m)
    ensures r.Keys == m.Keys
    ensures r - Rewritten == m - Rewritten
    ensures "totalCurrentCharges" in m ==>
      r["totalCurrentCharges"] == (if m["totalCurrentCharges"].Str? then Number(ParseCurrency(m["totalCurrentCharges"].s)) else m["totalCurrentCharges"])
    ensures PostProcessSafe(r) && Coerced(r)
    ensures Coerced(m) ==> r == m
    ensures "lineItems" in m && Truthy(m["lineItems"]) ==> r["lineItems"] == Arr(CoerceItems(m["lineItems"].items))
    ensures "usageCharts" in m && Truthy(m["usageCharts"]) ==> r["usageCharts"] == Arr(CoerceCharts(m["usageCharts"].items))
  {
    var m1 := CoerceTotal(m);
    Agree(m1, m, {"totalCurrentCharges"}, "lineItems");
    Agree(m1, m, {"totalCurrentCharges"}, "usageCharts");
    var m2 := CoerceLineItems(m1);
    Agree(m2, m1, {"lineItems"}, "totalCurrentCharges");
    Agree(m2, m1, {"lineItems"}, "usageCharts");
    LineItemsUnchanged(m1);
    var r := CoerceUsageCharts(m2);
    Agree(r, m2, {"usageCharts"}, "totalCurrentCharges");
    Agree(r, m2, {"usageCharts"}, "lineItems");
    UsageChartsUnchanged(m2);
    Outside(r, m2, m1, m);
    r
  }

  /** The fields the pass never touches, by name. */
  lemma NotRewritten()
    ensures "accountNumber" !in Rewritten && "confidenceScore" !in Rewritten
    ensures "confidenceReasoning" !in Rewritten && "verificationQuestions" !in Rewritten
  {
  }

  /** Two objects equal away from the names `ks` agree on every other property. */
  lemma Agree(a: map<string, Json>, b: map<string, Json>, ks: set<string>, k': string)
    requires a - ks == b - ks && k' !in ks
    ensures (k' in a <==> k' in b) && (k' in a ==> a[k'] == b[k'])
  {
    assert k' in a <==> k' in a - ks;
    assert k' in b <==> k' in b - ks;
    if k' in a { assert a[k'] == (a - ks)[k']; }
  }

  /** Three steps, each confined to one rewritten place, leave everything
      else alone. */
  lemma Outside(r: map<string, Json>, m2: map<string, Json>, m1: map<string, Json>, m: map<string, Json>)
    requires r - {"usageCharts"} == m2 - {"usageCharts"}
    requires m2 - {"lineItems"} == m1 - {"lineItems"}
    requires m1 - {"totalCurrentCharges"} == m - {"totalCurrentCharges"}
    ensures r - Rewritten == m - Rewritten
  {
    forall k | k !in Rewritten
      ensures (k in r <==> k in m) && (k in r ==> r[k] == m[k])
    {
      Agree(r, m2, {"usageCharts"}, k);
      Agree(m2, m1, {"lineItems"}, k);
      Agree(m1, m, {"totalCurrentCharges"}, k);
    }
  }

  /** Running the pass twice is running it once. */
  lemma PostProcessIdempotent(m: map<string, Json>)
    requires PostProcessSafe(m)
    ensures PostProcess(PostProcess(m)) == PostProcess(m)
  {
  }

  /** The objects the pass leaves alone are exactly those in which no
      rewritten place holds a string. */
  lemma PostProcessFixedPoints(m: map<string, Json>)
    requires PostProcessSafe(m)
    ensures PostProcess(m) == m <==> Coerced(m)
  {
  }

  // ---- the pass after `sanitizeAiResponse` ----

  /** Every usage entry of every point of the chart is non-null. */
  predicate EntriesNonNull(c: Json) {
    forall j :: 0 <= j < |PointsOf(c)| ==>
      forall l :: 0 <= l < |EntriesOf(PointsOf(c)[j])| ==> EntriesOf(PointsOf(c)[j])[l] != Null
  }

  predicate AllEntriesNonNull(cs: seq<Json>) {
    forall i :: 0 <= i < |cs| ==> EntriesNonNull(cs[i])
  }

  predicate AllRepaired(cs: seq<Json>) {
    forall i :: 0 <= i < |cs| ==> Charts.Repaired(cs[i])
  }

  lemma NestedPointSafe(p: Json)
    requires Charts.IsNestedPoint(p)
    ensures PointSafe(p) <==> forall l :: 0 <= l < |EntriesOf(p)| ==> EntriesOf(p)[l] != Null
  {
    NamedFieldMeansObject(p, "month");
    assert p.Obj?;
    assert Present(Get(p, "usage"));
    assert EntriesOf(p) == Get(p, "usage").value.items;
  }

  lemma RepairedChartSafe(c: Json)
    requires Charts.Repaired(c)
    ensures ChartSafe(c) <==> EntriesNonNull(c)
  {
    var ps := PointsOf(c);
    assert Present(Get(c, "data"));
    assert ps == Get(c, "data").value.items;
    forall j | 0 <= j < |ps| ensures PointSafe(ps[j]) <==> forall l :: 0 <= l < |EntriesOf(ps[j])| ==> EntriesOf(ps[j])[l] != Null {
      NestedPointSafe(ps[j]);
    }
  }

  lemma RepairedChartsSafe(cs: seq<Json>)
    requires AllRepaired(cs)
    ensures AllChartsSafe(cs) <==> AllEntriesNonNull(cs)
  {
    forall i | 0 <= i < |cs| ensures ChartSafe(cs[i]) <==> EntriesNonNull(cs[i]) {
      RepairedChartSafe(cs[i]);
    }
  }

  /** On a sanitized object the pass can only fail on a null usage entry
      inside a chart that was already nested. */
  lemma SanitizedSafety(m: map<string, Json>)
    requires Sanitize.WellShaped(m)
    ensures PostProcessSafe(m) <==> AllEntriesNonNull(m["usageCharts"].items)
  {
    ShapedParts(m);
    RepairedChartsSafe(m["usageCharts"].items);
    ShapedItemsSafe(m);
  }

  /** The two lists of a sanitized object, as predicates on their items. */
  lemma ShapedParts(m: map<string, Json>)
    requires Sanitize.WellShaped(m)
    ensures "lineItems" in m && m["lineItems"].Arr? && AllLineItems(m["lineItems"].items)
    ensures "usageCharts" in m && m["usageCharts"].Arr? && AllRepaired(m["usageCharts"].items)
    ensures "usageCharts" in m && Truthy(m["usageCharts"])
    ensures ScalarsPresent(m)
  {
    ScalarsPresentShaped(m);
  }

  lemma ShapedItemsSafe(m: map<string, Json>)
    requires "lineItems" in m && m["lineItems"].Arr? && AllLineItems(m["lineItems"].items)
    ensures ItemsSafe(m)
  {
    var xs := m["lineItems"].items;
    forall i | 0 <= i < |xs| ensures xs[i] != Null { assert Sanitize.IsLineItem(xs[i]); }
  }

  lemma PointStaysNested(p: Json)
    requires PointSafe(p) && Charts.IsNestedPoint(p)
    ensures Charts.IsNestedPoint(CoercePoint(p))
  {
    PointRewrite(p);
  }

  lemma ChartStaysRepaired(c: Json)
    requires ChartSafe(c) && Charts.Repaired(c)
    ensures Charts.Repaired(CoerceChart(c))
  {
    ChartRewrite(c);
    var ps := PointsOf(c);
    assert PointsOf(CoerceChart(c)) == CoercePoints(ps);
    forall j | 0 <= j < |ps| ensures Charts.IsNestedPoint(CoercePoints(ps)[j]) {
      PointStaysNested(ps[j]);
    }
  }

  lemma ChartsStayRepaired(cs: seq<Json>)
    requires AllChartsSafe(cs) && AllRepaired(cs)
    ensures AllRepaired(CoerceCharts(cs))
  {
    forall i | 0 <= i < |cs| ensures Charts.Repaired(CoerceCharts(cs)[i]) {
      ChartStaysRepaired(cs[i]);
    }
  }

  predicate AllLineItems(xs: seq<Json>) {
    forall i :: 0 <= i < |xs| ==> Sanitize.IsLineItem(xs[i])
  }

  lemma ItemsStayLineItems(xs: seq<Json>)
    requires AllLineItems(xs)
    ensures AllLineItems(CoerceItems(xs))
  {
  }

  /** The pass keeps every guarantee of the sanitized shape. */
  lemma PostProcessKeepsShape(m: map<string, Json>)
    requires Sanitize.WellShaped(m) && PostProcessSafe(m)
    ensures Sanitize.WellShaped(PostProcess(m))
  {
    var r := PostProcess(m);
    ShapedParts(m);
    var xs := m["lineItems"].items;
    var cs := m["usageCharts"].items;
    ListsAfterPass(m);
    ItemsStayLineItems(xs);
    ChartsStayRepaired(cs);
    ScalarsAfterPass(m);
    NotRewritten();
    Agree(r, m, Rewritten, "verificationQuestions");
    ShapedFromParts(r);
  }

  lemma ListsAfterPass(m: map<string, Json>)
    requires PostProcessSafe(m)
    requires "lineItems" in m && m["lineItems"].Arr? && "usageCharts" in m && m["usageCharts"].Arr?
    ensures PostProcess(m)["lineItems"] == Arr(CoerceItems(m["lineItems"].items))
    ensures PostProcess(m)["usageCharts"] == Arr(CoerceCharts(m["usageCharts"].items))
  {
    var m1 := CoerceTotal(m);
    Agree(m1, m, {"totalCurrentCharges"}, "lineItems");
    Agree(m1, m, {"totalCurrentCharges"}, "usageCharts");
    var m2 := CoerceLineItems(m1);
    Agree(m2, m1, {"lineItems"}, "usageCharts");
    var r := CoerceUsageCharts(m2);
    Agree(r, m2, {"usageCharts"}, "lineItems");
  }

  /** The four defaulted fields are present and not null. */
  predicate ScalarsPresent(m: map<string, Json>) {
    && "accountNumber" in m && m["accountNumber"] != Null
    && "totalCurrentCharges" in m && m["totalCurrentCharges"] != Null
    && "confidenceScore" in m && m["confidenceScore"] != Null
    && "confidenceReasoning" in m && m["confidenceReasoning"] != Null
  }

  lemma ScalarsPresentShaped(m: map<string, Json>)
    ensures ScalarsPresent(m) <==> forall k :: k in Sanitize.RequiredScalars ==> k in m && m[k] != Null
  {
  }

  lemma ScalarsAfterPass(m: map<string, Json>)
    requires PostProcessSafe(m) && ScalarsPresent(m)
    ensures ScalarsPresent(PostProcess(m))
  {
    var r := PostProcess(m);
    NotRewritten();
    Agree(r, m, Rewritten, "accountNumber");
    Agree(r, m, Rewritten, "confidenceScore");
    Agree(r, m, Rewritten, "confidenceReasoning");
  }

  lemma ShapedFromParts(r: map<string, Json>)
    requires ScalarsPresent(r)
    requires "lineItems" in r && r["lineItems"].Arr? && AllLineItems(r["lineItems"].items)
    requires "usageCharts" in r && r["usageCharts"].Arr? && AllRepaired(r["usageCharts"].items)
    requires "verificationQuestions" in r && r["verificationQuestions"].Arr?
    ensures Sanitize.WellShaped(r)
  {
    ScalarsPresentShaped(r);
  }

  // ---- the whole normaliser ----

  /** The responses both passes handle without a TypeError. */
  predicate NormalizeSafe(raw: Json) {
    Sanitize.SanitizeSafe(raw) && PostProcessSafe(Sanitize.Sanitize(raw))
  }

  /** `postProcessData(sanitizeAiResponse(parsedJson))`: the object a
      provider's parsed response becomes. */
  function Normalize(raw: Json): (r: map<string, Json>)
    requires NormalizeSafe(raw)
    ensures r == map[] <==> !IsObjectLike(Sanitize.SourceOf(raw))
    ensures forall k :: k in r ==> k in Schema.SchemaKeys
    ensures IsObjectLike(Sanitize.SourceOf(raw)) ==> Sanitize.WellShaped(r)
    ensures Coerced(r) && PostProcessSafe(r)
  {
    var m := Sanitize.Sanitize(raw);
    var r := PostProcess(m);
    if IsObjectLike(Sanitize.SourceOf(raw)) then
      PostProcessKeepsShape(m);
      r
    else
      r
  }

  /** For an object-like source the only extra failure the second pass adds
      is a null usage entry in a chart the provider already nested. */
  lemma NormalizeSafeWhen(raw: Json)
    requires Sanitize.SanitizeSafe(raw) && IsObjectLike(Sanitize.SourceOf(raw))
    ensures NormalizeSafe(raw) <==> AllEntriesNonNull(Sanitize.Sanitize(raw)["usageCharts"].items)
  {
    SanitizedSafety(Sanitize.Sanitize(raw));
  }

  /** A response that is not an object passes the second pass trivially. */
  lemma NonObjectNormalizesEmpty(raw: Json)
    requires Sanitize.SanitizeSafe(raw) && !IsObjectLike(Sanitize.SourceOf(raw))
    ensures NormalizeSafe(raw) && Normalize(raw) == map[]
  {
  }

  /** The three lists of the normalised object, in terms of the fields
      resolved from the source: the line items that pass the filter, in
      order, with their amounts coerced; the kept and repaired charts, in
      order, with their usage values coerced; the verification questions as
      resolved. */
  lemma NormalizedLists(raw: Json)
    requires NormalizeSafe(raw) && IsObjectLike(Sanitize.SourceOf(raw))
    ensures var f := Resolve.Fields(Entries(Sanitize.SourceOf(raw)));
      var items := if "lineItems" in f && f["lineItems"].Arr? then Sanitize.KeepLineItems(f["lineItems"].items) else [];
      var charts := if "usageCharts" in f && f["usageCharts"].Arr? then Charts.RepairCharts(f["usageCharts"].items) else [];
      && Normalize(raw)["lineItems"] == Arr(CoerceItems(items))
      && AllChartsSafe(charts)
      && Normalize(raw)["usageCharts"] == Arr(CoerceCharts(charts))
      && Normalize(raw)["verificationQuestions"] ==
           (if "verificationQuestions" in f && f["verificationQuestions"].Arr? then f["verificationQuestions"] else Arr([]))
  {
    var f := Resolve.Fields(Entries(Sanitize.SourceOf(raw)));
    var items := if "lineItems" in f && f["lineItems"].Arr? then Sanitize.KeepLineItems(f["lineItems"].items) else [];
    var charts := if "usageCharts" in f && f["usageCharts"].Arr? then Charts.RepairCharts(f["usageCharts"].items) else [];
    var m := Sanitize.Sanitize(raw);
    Sanitize.SanitizedLists(raw);
    assert m["lineItems"] == Arr(items) && m["usageCharts"] == Arr(charts);
    ListsThroughPass(m, items, charts);
  }

  /** The pass on an object whose lists are arrays: the lists are coerced
      item by item and the questions are untouched. */
  lemma ListsThroughPass(m: map<string, Json>, items: seq<Json>, charts: seq<Json>)
    requires PostProcessSafe(m)
    requires "lineItems" in m && m["lineItems"] == Arr(items)
    requires "usageCharts" in m && m["usageCharts"] == Arr(charts)
    requires "verificationQuestions" in m
    ensures AllChartsSafe(charts)
    ensures PostProcess(m)["lineItems"] == Arr(CoerceItems(items))
    ensures PostProcess(m)["usageCharts"] == Arr(CoerceCharts(charts))
    ensures PostProcess(m)["verificationQuestions"] == m["verificationQuestions"]
  {
    NotRewritten();
    Agree(PostProcess(m), m, Rewritten, "verificationQuestions");
  }

  /** The normalised object is a fixed point of the second pass. */
  lemma NormalizeSettled(raw: Json)
    requires NormalizeSafe(raw)
    ensures PostProcess(Normalize(raw)) == Normalize(raw)
  {
  }
}
