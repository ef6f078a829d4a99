/** `sanitizeAiResponse`: from whatever JSON the provider returned to an
    object holding only schema properties, with the usage charts repaired,
    the line items filtered and the required fields defaulted. */
module Sanitize {
  import opened Wrappers
  import opened Text
  import opened Json
  import opened Schema
  import opened Resolve
  import opened Charts

  /** The properties every plain object inherits whose names are three or
      more ASCII letters. As a month token such a name finds the inherited
      member in the month map, and pushing onto its `usage` throws a
      TypeError; the normaliser is only modelled on inputs that avoid it. */
  const PrototypeNames: set<string> := {
    "constructor", "hasOwnProperty", "isPrototypeOf", "propertyIsEnumerable",
    "toLocaleString", "toString", "valueOf"
  }

  /** The text filled in when the provider gives no confidence reasoning. */
  const DefaultReasoning: string := "Confidence not provided by AI. Please verify data."

  /** The object actually read: the value of an object-valued `properties`
      envelope, or else the input itself. */
  function SourceOf(raw: Json): (src: Json)
    requires raw != Null
    ensures src == raw || (Get(raw, "properties") == Some(src) && IsObjectLike(src))
    ensures Get(raw, "properties").Some? && IsObjectLike(Get(raw, "properties").value) ==> src == Get(raw, "properties").value
  {
    match Get(raw, "properties")
    case Some(p) => if Truthy(p) && IsObjectLike(p) then p else raw
    case None => raw
  }

  /** A chart the repair can process without a TypeError: an array `data`
      holds no null point, and when it is regrouped no month token is an
      inherited property name. */
  predicate ChartSafe(c: Json) {
    KeepChart(c) && Get(c, "data").value.Arr? ==>
      var ps := Get(c, "data").value.items;
      && (forall i :: 0 <= i < |ps| ==> ps[i] != Null)
      && (!AllNested(ps) ==> forall k :: 0 <= k < |Rows(ps)| ==> Rows(ps)[k].month !in PrototypeNames)
  }

  /** The inputs on which `sanitizeAiResponse` returns normally: a
      non-null value whose usage charts are safe to repair. */
  predicate SanitizeSafe(raw: Json) {
    raw != Null &&
    var src := SourceOf(raw);
    IsObjectLike(src) ==>
      var m := Fields(Entries(src));
      "usageCharts" in m && m["usageCharts"].Arr? ==>
        forall i :: 0 <= i < |m["usageCharts"].items| ==> ChartSafe(m["usageCharts"].items[i])
  }

  /** `sanitized[k] = sanitized[k] ?? d`: null and absent both take the
      default. */
  function OrDefault(m: map<string, Json>, k: string, d: Json): (r: map<string, Json>)
    requires d != Null
    ensures forall k' :: k' in r <==> k' in m || k' == k
    ensures forall k' :: k' in m && k' != k ==> r[k'] == m[k']
    ensures r[k] != Null
    ensures k in m && m[k] != Null ==> r[k] == m[k]
    ensures !(k in m && m[k] != Null) ==> r[k] == d
  {
    if k in m && m[k] != Null then m else m[k := d]
  }

  /** `typeof item === 'object' && item !== null && item.description`. */
  predicate IsLineItem(v: Json) {
    IsObjectLike(v) && Present(Get(v, "description"))
  }

  /** The line-item filter, keeping order. */
  function KeepLineItems(xs: seq<Json>): (ys: seq<Json>)
    ensures forall y :: y in ys <==> y in xs && IsLineItem(y)
    ensures |ys| <= |xs|
    decreases |xs|
  {
    if |xs| == 0 then []
    else
      assert forall y :: y in xs <==> y == xs[0] || y in xs[1..];
      (if IsLineItem(xs[0]) then [xs[0]] else []) + KeepLineItems(xs[1..])
  }

  /** The filter keeps order and multiplicity: the items of `a + b` give
      the kept items of `a` followed by those of `b`, and one item is kept
      exactly when it is a line item. */
  lemma {:induction false} KeepLineItemsAppend(a: seq<Json>, b: seq<Json>)
    ensures KeepLineItems(a + b) == KeepLineItems(a) + KeepLineItems(b)
    decreases |a|
  {
    if |a| == 0 {
      assert a + b == b;
    } else {
      assert (a + b)[0] == a[0];
      assert (a + b)[1..] == a[1..] + b;
      KeepLineItemsAppend(a[1..], b);
    }
  }

  lemma KeepLineItemsOne(x: Json)
    ensures KeepLineItems([x]) == if IsLineItem(x) then [x] else []
  {
    assert [x][1..] == [];
  }

  /** `Array.isArray(m[k]) ? m[k] : []`. */
  function ArrayOr(m: map<string, Json>, k: string): (v: Json)
    ensures v.Arr?
    ensures k in m && m[k].Arr? ==> v == m[k]
  {
    if k in m && m[k].Arr? then m[k] else Arr([])
  }

  /** The four `??` defaults of the closing block. */
  function FillDefaults(m: map<string, Json>): (r: map<string, Json>)
    ensures forall k :: k in r <==> k in m || k in RequiredScalars
    ensures forall k :: k in m && k !in RequiredScalars ==> r[k] == m[k]
    ensures forall k :: k in RequiredScalars ==> r[k] != Null
    ensures forall k :: k in RequiredScalars ==> r[k] == if k in m && m[k] != Null then m[k] else DefaultOf(k)
  {
    var m1 := OrDefault(m, "accountNumber", Str("N/A"));
    var m2 := OrDefault(m1, "totalCurrentCharges", Number(Finite(0.0)));
    var m3 := OrDefault(m2, "confidenceScore", Number(Finite(0.5)));
    var r := OrDefault(m3, "confidenceReasoning", Str(DefaultReasoning));
    OrDefaultChain(m, "accountNumber", Str("N/A"), "totalCurrentCharges", Number(Finite(0.0)),
      "confidenceScore", Number(Finite(0.5)), "confidenceReasoning", Str(DefaultReasoning));
    DefaultChainValues(m);
    r
  }

  /** Each of the four `??` of the closing block sees its own field only. */
  lemma DefaultChainValues(m: map<string, Json>)
    ensures var r := OrDefault(OrDefault(OrDefault(OrDefault(m, "accountNumber", Str("N/A")),
        "totalCurrentCharges", Number(Finite(0.0))), "confidenceScore", Number(Finite(0.5))),
        "confidenceReasoning", Str(DefaultReasoning));
      forall k :: k in RequiredScalars ==> r[k] == if k in m && m[k] != Null then m[k] else DefaultOf(k)
  {
    ScalarNamesDistinct();
    OrDefaultChain(m, "accountNumber", Str("N/A"), "totalCurrentCharges", Number(Finite(0.0)),
      "confidenceScore", Number(Finite(0.5)), "confidenceReasoning", Str(DefaultReasoning));
  }

  /** Four `??` defaults in a row: the four fields are present and not
      null afterwards, and every other field is unchanged. */
  lemma OrDefaultChain(m: map<string, Json>, k1: string, d1: Json, k2: string, d2: Json,
                       k3: string, d3: Json, k4: string, d4: Json)
    requires d1 != Null && d2 != Null && d3 != Null && d4 != Null
    ensures var r := OrDefault(OrDefault(OrDefault(OrDefault(m, k1, d1), k2, d2), k3, d3), k4, d4);
      && (forall k :: k in r <==> k in m || k == k1 || k == k2 || k == k3 || k == k4)
      && (forall k :: k in m && k != k1 && k != k2 && k != k3 && k != k4 ==> r[k] == m[k])
      && r[k1] != Null && r[k2] != Null && r[k3] != Null && r[k4] != Null
    ensures k1 != k2 && k1 != k3 && k1 != k4 && k2 != k3 && k2 != k4 && k3 != k4 ==>
      var r := OrDefault(OrDefault(OrDefault(OrDefault(m, k1, d1), k2, d2), k3, d3), k4, d4);
      && r[k1] == (if k1 in m && m[k1] != Null then m[k1] else d1)
      && r[k2] == (if k2 in m && m[k2] != Null then m[k2] else d2)
      && r[k3] == (if k3 in m && m[k3] != Null then m[k3] else d3)
      && r[k4] == (if k4 in m && m[k4] != Null then m[k4] else d4)
  {
    var m1 := OrDefault(m, k1, d1);
    var m2 := OrDefault(m1, k2, d2);
    var m3 := OrDefault(m2, k3, d3);
    var r := OrDefault(m3, k4, d4);
    assert m2[k1] != Null && m3[k1] != Null && m3[k2] != Null;
  }

  /** The required fields that are not lists. */
  const RequiredScalars: set<string> := {"accountNumber", "totalCurrentCharges", "confidenceScore", "confidenceReasoning"}

  /** The required fields that are lists, and the optional list that is
      nevertheless always set. */
  const ListKeys: set<string> := {"lineItems", "usageCharts", "verificationQuestions"}

  /** The three array guarantees of the closing block. */
  function FillLists(m: map<string, Json>): (r: map<string, Json>)
    ensures forall k :: k in r <==> k in m || k in ListKeys
    ensures forall k :: k in m && k !in ListKeys ==> r[k] == m[k]
    ensures r["lineItems"].Arr? && r["usageCharts"].Arr? && r["verificationQuestions"].Arr?
    ensures forall i :: 0 <= i < |r["lineItems"].items| ==> IsLineItem(r["lineItems"].items[i])
    ensures "lineItems" in m && m["lineItems"].Arr? ==> r["lineItems"] == Arr(KeepLineItems(m["lineItems"].items))
    ensures "usageCharts" in m && m["usageCharts"].Arr? ==> r["usageCharts"] == m["usageCharts"]
    ensures "verificationQuestions" in m && m["verificationQuestions"].Arr? ==>
      r["verificationQuestions"] == m["verificationQuestions"]
    ensures forall k :: k in ListKeys && !(k in m && m[k].Arr?) ==> r[k] == Arr([])
  {
    var items := if "lineItems" in m && m["lineItems"].Arr? then KeepLineItems(m["lineItems"].items) else [];
    assert forall i :: 0 <= i < |items| ==> IsLineItem(items[i]) by {
      forall i | 0 <= i < |items| ensures IsLineItem(items[i]) { assert items[i] in items; }
    }
    var m5 := m["lineItems" := Arr(items)];
    var m6 := m5["usageCharts" := ArrayOr(m5, "usageCharts")];
    m6["verificationQuestions" := ArrayOr(m6, "verificationQuestions")]
  }

  /** The closing block: four defaults, then three array guarantees. */
  function ApplyDefaults(m: map<string, Json>): map<string, Json> {
    FillLists(FillDefaults(m))
  }

  /** The chart pass over the resolved fields. */
  function RepairFields(f: map<string, Json>): map<string, Json> {
    if "usageCharts" in f && f["usageCharts"].Arr? then f["usageCharts" := Arr(RepairCharts(f["usageCharts"].items))] else f
  }

  /** The fields after both key loops and the chart pass. */
  function Repaired(src: Json): (m: map<string, Json>)
    requires IsObjectLike(src)
  {
    RepairFields(Fields(Entries(src)))
  }

  /** `sanitizeAiResponse(raw)`. */
  function Sanitize(raw: Json): (r: map<string, Json>)
    requires SanitizeSafe(raw)
    ensures r == map[] <==> !IsObjectLike(SourceOf(raw))
    ensures forall k :: k in r ==> k in SchemaKeys
    ensures IsObjectLike(SourceOf(raw)) ==> WellShaped(r)
  {
    var src := SourceOf(raw);
    if !IsObjectLike(src) then map[]
    else
      var r := ApplyDefaults(Repaired(src));
      SanitizedKeys(src);
      SanitizedShape(src);
      r
  }

  /** What every sanitized object guarantees: the required fields and the
      verification questions are present and not null; the three lists are
      arrays; every line item is an object with a truthy description; every
      chart is an object whose `data` is an array of nested points. */
  predicate WellShaped(r: map<string, Json>) {
    && (forall k :: k in RequiredScalars ==> k in r && r[k] != Null)
    && (forall k :: k in ListKeys ==> k in r && r[k].Arr?)
    && (forall i :: 0 <= i < |r["lineItems"].items| ==> IsLineItem(r["lineItems"].items[i]))
    && (forall i :: 0 <= i < |r["usageCharts"].items| ==> Charts.Repaired(r["usageCharts"].items[i]))
  }

  lemma SanitizedKeys(src: Json)
    requires IsObjectLike(src)
    ensures forall k :: k in ApplyDefaults(Repaired(src)) ==> k in SchemaKeys
  {
    var f := Fields(Entries(src));
    forall k | k in f ensures k in SchemaKeys {
      FieldsAreSchemaKeys(Entries(src), k);
    }
    DefaultsKeepSchemaKeys(RepairFields(f));
  }

  /** The closing block adds schema properties only. */
  lemma DefaultsKeepSchemaKeys(g: map<string, Json>)
    requires forall k :: k in g ==> k in SchemaKeys
    ensures forall k :: k in ApplyDefaults(g) ==> k in SchemaKeys
  {
    assert forall k :: k in RequiredScalars || k in ListKeys ==> k in SchemaKeys;
  }

  /** Every chart present as an array is in final shape. */
  predicate ChartsReady(m: map<string, Json>) {
    "usageCharts" in m && m["usageCharts"].Arr? ==>
      forall i :: 0 <= i < |m["usageCharts"].items| ==> Charts.Repaired(m["usageCharts"].items[i])
  }

  lemma RepairedChartsReady(f: map<string, Json>)
    ensures ChartsReady(RepairFields(f))
  {
  }

  lemma DefaultsShape(m: map<string, Json>)
    requires ChartsReady(m)
    ensures WellShaped(ApplyDefaults(m))
  {
    DefaultsKeepScalars(m);
    DefaultsKeepCharts(m);
  }

  lemma DefaultsKeepScalars(m: map<string, Json>)
    ensures forall k :: k in RequiredScalars ==> k in ApplyDefaults(m) && ApplyDefaults(m)[k] != Null
  {
    var d := FillDefaults(m);
    ScalarsAreNotLists();
    forall k | k in RequiredScalars ensures k in FillLists(d) && FillLists(d)[k] != Null {
      assert k !in ListKeys;
    }
  }

  lemma DefaultsKeepCharts(m: map<string, Json>)
    requires ChartsReady(m)
    ensures ChartsReady(ApplyDefaults(m))
  {
    var d := FillDefaults(m);
    assert ChartsReady(d) by {
      assert "usageCharts" !in RequiredScalars;
      if "usageCharts" in d && d["usageCharts"].Arr? { assert d["usageCharts"] == m["usageCharts"]; }
    }
  }

  lemma SanitizedShape(src: Json)
    requires IsObjectLike(src)
    ensures WellShaped(ApplyDefaults(Repaired(src)))
  {
    RepairedChartsReady(Fields(Entries(src)));
    DefaultsShape(Repaired(src));
  }

  // ---- what the result holds, in terms of the resolved fields ----

  /** The default of one required scalar field. */
  function DefaultOf(k: string): Json
    requires k in RequiredScalars
  {
    if k == "accountNumber" then Str("N/A")
    else if k == "totalCurrentCharges" then Number(Finite(0.0))
    else if k == "confidenceScore" then Number(Finite(0.5))
    else Str(DefaultReasoning)
  }

  /** The object a source without a single usable field sanitizes to: the
      four scalar defaults and three empty lists. */
  const DefaultFields: map<string, Json> :=
    map k | k in RequiredScalars + ListKeys :: if k in RequiredScalars then DefaultOf(k) else Arr([])

  lemma ScalarsAreNotLists()
    ensures RequiredScalars !! ListKeys
  {
  }

  /** The four defaulted names are different. */
  lemma ScalarNamesDistinct()
    ensures "accountNumber" != "totalCurrentCharges" && "accountNumber" != "confidenceScore"
    ensures "accountNumber" != "confidenceReasoning" && "totalCurrentCharges" != "confidenceScore"
    ensures "totalCurrentCharges" != "confidenceReasoning" && "confidenceScore" != "confidenceReasoning"
  {
  }

  lemma ScalarDefaults(m: map<string, Json>, k: string)
    requires k in RequiredScalars
    ensures ApplyDefaults(m)[k] == if k in m && m[k] != Null then m[k] else DefaultOf(k)
  {
    ScalarsAreNotLists();
    assert k !in ListKeys;
  }

  lemma SanitizeOfObject(raw: Json)
    requires SanitizeSafe(raw) && IsObjectLike(SourceOf(raw))
    ensures Sanitize(raw) == ApplyDefaults(Repaired(SourceOf(raw)))
  {
  }

  /** The chart pass touches `usageCharts` only. */
  lemma RepairedAgrees(f: map<string, Json>, k: string)
    requires k != "usageCharts"
    ensures (k in RepairFields(f) <==> k in f) && (k in f ==> RepairFields(f)[k] == f[k])
  {
  }

  /** Outside the defaulted fields the closing block changes nothing. */
  lemma OtherKeysUntouched(m: map<string, Json>, k: string)
    requires k !in RequiredScalars && k !in ListKeys
    ensures (k in ApplyDefaults(m) <==> k in m) && (k in m ==> ApplyDefaults(m)[k] == m[k])
  {
  }

  /** The four defaults apply exactly when the resolved value is absent or
      null; any other value, whatever its type, is kept. */
  lemma DefaultsOnlyWhenNullish(raw: Json, k: string)
    requires SanitizeSafe(raw) && IsObjectLike(SourceOf(raw))
    requires k in RequiredScalars
    ensures var f := Fields(Entries(SourceOf(raw)));
      Sanitize(raw)[k] == if k in f && f[k] != Null then f[k] else DefaultOf(k)
  {
    SanitizeOfObject(raw);
    RepairedDefaults(Fields(Entries(SourceOf(raw))), k);
  }

  lemma RepairedDefaults(f: map<string, Json>, k: string)
    requires k in RequiredScalars
    ensures ApplyDefaults(RepairFields(f))[k] == if k in f && f[k] != Null then f[k] else DefaultOf(k)
  {
    ScalarDefaults(RepairFields(f), k);
    RepairedAgrees(f, k);
  }

  /** The three lists of the result, in terms of the resolved fields: the
      line items that pass the filter, in order; the charts kept and
      repaired by the chart pass, in order; the verification questions as
      resolved. Each is `[]` when the resolved value is missing or not an
      array. */
  lemma SanitizedLists(raw: Json)
    requires SanitizeSafe(raw) && IsObjectLike(SourceOf(raw))
    ensures var f := Fields(Entries(SourceOf(raw)));
      && Sanitize(raw)["lineItems"] ==
           (if "lineItems" in f && f["lineItems"].Arr? then Arr(KeepLineItems(f["lineItems"].items)) else Arr([]))
      && Sanitize(raw)["usageCharts"] ==
           (if "usageCharts" in f && f["usageCharts"].Arr? then Arr(RepairCharts(f["usageCharts"].items)) else Arr([]))
      && Sanitize(raw)["verificationQuestions"] ==
           (if "verificationQuestions" in f && f["verificationQuestions"].Arr? then f["verificationQuestions"] else Arr([]))
  {
    SanitizeOfObject(raw);
    RepairedLists(Fields(Entries(SourceOf(raw))));
  }

  lemma RepairedLists(f: map<string, Json>)
    ensures var r := ApplyDefaults(RepairFields(f));
      && r["lineItems"] ==
           (if "lineItems" in f && f["lineItems"].Arr? then Arr(KeepLineItems(f["lineItems"].items)) else Arr([]))
      && r["usageCharts"] ==
           (if "usageCharts" in f && f["usageCharts"].Arr? then Arr(RepairCharts(f["usageCharts"].items)) else Arr([]))
      && r["verificationQuestions"] ==
           (if "verificationQuestions" in f && f["verificationQuestions"].Arr? then f["verificationQuestions"] else Arr([]))
  {
    var g := RepairFields(f);
    var d := FillDefaults(g);
    ScalarsAreNotLists();
    assert "lineItems" !in RequiredScalars && "usageCharts" !in RequiredScalars && "verificationQuestions" !in RequiredScalars;
    RepairedAgrees(f, "lineItems");
    RepairedAgrees(f, "verificationQuestions");
    assert ("lineItems" in d <==> "lineItems" in f) && ("lineItems" in f ==> d["lineItems"] == f["lineItems"]);
    assert ("verificationQuestions" in d <==> "verificationQuestions" in f)
      && ("verificationQuestions" in f ==> d["verificationQuestions"] == f["verificationQuestions"]);
    assert ("usageCharts" in d <==> "usageCharts" in g) && ("usageCharts" in g ==> d["usageCharts"] == g["usageCharts"]);
  }

  /** The fields with no default (name, address, the dates) come through
      exactly as resolved, and are absent exactly when unresolved. */
  lemma OptionalFieldsPassThrough(raw: Json, k: string)
    requires SanitizeSafe(raw) && IsObjectLike(SourceOf(raw))
    requires k !in RequiredScalars && k !in ListKeys
    ensures var f := Fields(Entries(SourceOf(raw)));
      (k in Sanitize(raw) <==> k in f) && (k in f ==> Sanitize(raw)[k] == f[k])
  {
    SanitizeOfObject(raw);
    RepairedPassThrough(Fields(Entries(SourceOf(raw))), k);
  }

  lemma RepairedPassThrough(f: map<string, Json>, k: string)
    requires k !in RequiredScalars && k !in ListKeys
    ensures (k in ApplyDefaults(RepairFields(f)) <==> k in f) && (k in f ==> ApplyDefaults(RepairFields(f))[k] == f[k])
  {
    OtherKeysUntouched(RepairFields(f), k);
    RepairedAgrees(f, k);
  }

  lemma DefaultsOfEmpty()
    ensures ApplyDefaults(map[]) == DefaultFields
  {
    var r := ApplyDefaults(map[]);
    EmptyListsDefault();
    EmptyScalarsDefault();
    assert r.Keys == RequiredScalars + ListKeys;
    ScalarsAreNotLists();
  }

  lemma EmptyScalarsDefault()
    ensures forall k :: k in RequiredScalars ==> ApplyDefaults(map[])[k] == DefaultOf(k)
  {
    forall k | k in RequiredScalars ensures ApplyDefaults(map[])[k] == DefaultOf(k) {
      ScalarDefaults(map[], k);
    }
  }

  lemma EmptyListsDefault()
    ensures forall k :: k in ListKeys ==> ApplyDefaults(map[])[k] == Arr([])
  {
    var d := FillDefaults(map[]);
    ScalarsAreNotLists();
    assert "lineItems" !in d && "usageCharts" !in d && "verificationQuestions" !in d;
  }

  /** A source that is an array has only index-named entries, so nothing
      resolves and nothing is copied: the result is exactly the defaults. */
  lemma ArraySourceGivesDefaults(raw: Json)
    requires SanitizeSafe(raw) && SourceOf(raw).Arr?
    ensures Sanitize(raw) == DefaultFields
  {
    var src := SourceOf(raw);
    SanitizeOfObject(raw);
    ArrayEntriesYieldNothing(src.items);
    assert Repaired(src) == map[];
    DefaultsOfEmpty();
  }
  /** With an object-valued `properties` envelope only the envelope's
      contents are read: the other outer fields make no difference. */
  lemma EnvelopeHidesOuterFields(fs: seq<(string, Json)>, fs': seq<(string, Json)>)
    requires Get(Obj(fs), "properties") == Get(Obj(fs'), "properties")
    requires Get(Obj(fs), "properties").Some? && IsObjectLike(Get(Obj(fs), "properties").value)
    requires SanitizeSafe(Obj(fs))
    ensures SanitizeSafe(Obj(fs')) && Sanitize(Obj(fs')) == Sanitize(Obj(fs))
  {
    var p := Get(Obj(fs), "properties").value;
    assert SourceOf(Obj(fs)) == p && SourceOf(Obj(fs')) == p;
    SameSourceSameResult(Obj(fs), Obj(fs'));
  }

  /** The result depends on the source object only. */
  lemma SameSourceSameResult(raw: Json, raw': Json)
    requires raw != Null && raw' != Null && SourceOf(raw) == SourceOf(raw')
    ensures SanitizeSafe(raw) <==> SanitizeSafe(raw')
    ensures SanitizeSafe(raw) ==> Sanitize(raw) == Sanitize(raw')
  {
  }

  /** A source that is not an object (a string, a number or a boolean)
      gives the empty object, with no defaults. */
  lemma PrimitiveSourceGivesNothing(raw: Json)
    requires raw != Null && !IsObjectLike(raw)
    ensures SanitizeSafe(raw) && Sanitize(raw) == map[]
  {
  }
}
