/** The record types of a bill. A record is what a JSON object becomes once
    its fields have the declared types; `FromJson` reads that shape back, and
    reading back what `ToJson` wrote gives the record again. */
module Types {
  import opened Wrappers
  import opened Json

  datatype LineItem = LineItem(description: string, amount: Num)

  /** A year is text, so labels such as "2016/2017" fit. */
  datatype UsageByYear = UsageByYear(year: string, value: Num)

  /** A month label with one (year, value) pair per year. */
  datatype UsageDataPoint = UsageDataPoint(month: string, usage: seq<UsageByYear>)

  datatype UsageChartData = UsageChartData(title: string, unit: string, data: seq<UsageDataPoint>)

  /** `field` is free text; it usually names a cell as a dotted path. */
  datatype VerificationQuestion = VerificationQuestion(field: string, question: string)

  /** A bill record: the required fields, then the optional ones. */
  datatype BillData = BillData(
    id: string,
    analyzedAt: string,
    accountName: Option<string>,
    accountNumber: string,
    serviceAddress: Option<string>,
    statementDate: Option<string>,
    servicePeriodStart: Option<string>,
    servicePeriodEnd: Option<string>,
    totalCurrentCharges: Num,
    dueDate: Option<string>,
    usageCharts: seq<UsageChartData>,
    lineItems: seq<LineItem>,
    confidenceScore: Num,
    confidenceReasoning: string,
    verificationQuestions: Option<seq<VerificationQuestion>>,
    rawResponse: Option<string>
  )

  // ---- reading and writing JSON ----

  function AsString(o: Option<Json>): Option<string> {
    if o.Some? && o.value.Str? then Some(o.value.s) else None
  }

  function AsNumber(o: Option<Json>): Option<Num> {
    if o.Some? && o.value.Number? then Some(o.value.n) else None
  }

  /** Every element decoded, or nothing when one of them does not decode. */
  function DecodeAll<T>(vs: seq<Json>, dec: Json -> Option<T>): (r: Option<seq<T>>)
    ensures r.Some? <==> forall i :: 0 <= i < |vs| ==> dec(vs[i]).Some?
    ensures r.Some? ==> |r.value| == |vs| && forall i :: 0 <= i < |vs| ==> dec(vs[i]) == Some(r.value[i])
    decreases |vs|
  {
    if |vs| == 0 then Some([])
    else
      var rest := DecodeAll(vs[1..], dec);
      match dec(vs[0])
      case None => None
      case Some(x) =>
        if rest.None? then None
        else
          assert forall i :: 1 <= i < |vs| ==> vs[i] == vs[1..][i - 1];
          Some([x] + rest.value)
  }

  function EncodeAll<T>(xs: seq<T>, enc: T -> Json): (vs: seq<Json>)
    ensures |vs| == |xs| && forall i :: 0 <= i < |xs| ==> vs[i] == enc(xs[i])
  {
    seq(|xs|, i requires 0 <= i < |xs| => enc(xs[i]))
  }

  /** Decoding an encoded sequence gives it back when each element does. */
  lemma DecodeEncodeAll<T>(xs: seq<T>, enc: T -> Json, dec: Json -> Option<T>)
    requires forall i :: 0 <= i < |xs| ==> dec(enc(xs[i])) == Some(xs[i])
    ensures DecodeAll(EncodeAll(xs, enc), dec) == Some(xs)
  {
    var vs := EncodeAll(xs, enc);
    assert forall i :: 0 <= i < |vs| ==> dec(vs[i]) == Some(xs[i]);
    var r := DecodeAll(vs, dec);
    assert r.Some?;
    assert |r.value| == |xs|;
    forall i | 0 <= i < |xs| ensures r.value[i] == xs[i] {
      assert dec(vs[i]) == Some(r.value[i]);
    }
    assert r.value == xs;
  }

  function UsageToJson(u: UsageByYear): Json {
    Obj([("year", Str(u.year)), ("value", Number(u.value))])
  }

  function UsageFromJson(v: Json): (r: Option<UsageByYear>)
    ensures r.Some? ==> Get(v, "year") == Some(Str(r.value.year)) && Get(v, "value") == Some(Number(r.value.value))
  {
    var y := AsString(Get(v, "year"));
    var n := AsNumber(Get(v, "value"));
    if y.Some? && n.Some? then Some(UsageByYear(y.value, n.value)) else None
  }

  lemma UsageRoundTrip(u: UsageByYear)
    ensures UsageFromJson(UsageToJson(u)) == Some(u)
  {
    Lookup2("year", Str(u.year), "value", Number(u.value), "year");
    Lookup2("year", Str(u.year), "value", Number(u.value), "value");
  }

  function PointToJson(p: UsageDataPoint): Json {
    Obj([("month", Str(p.month)), ("usage", Arr(EncodeAll(p.usage, UsageToJson)))])
  }

  function PointFromJson(v: Json): (r: Option<UsageDataPoint>)
    ensures r.Some? ==> Get(v, "month") == Some(Str(r.value.month))
  {
    var m := AsString(Get(v, "month"));
    var u := Get(v, "usage");
    if m.Some? && u.Some? && u.value.Arr? then
      match DecodeAll(u.value.items, UsageFromJson)
      case Some(us) => Some(UsageDataPoint(m.value, us))
      case None => None
    else None
  }

  lemma PointRoundTrip(p: UsageDataPoint)
    ensures PointFromJson(PointToJson(p)) == Some(p)
  {
    forall i | 0 <= i < |p.usage| ensures UsageFromJson(UsageToJson(p.usage[i])) == Some(p.usage[i]) {
      UsageRoundTrip(p.usage[i]);
    }
    DecodeEncodeAll(p.usage, UsageToJson, UsageFromJson);
    var us := Arr(EncodeAll(p.usage, UsageToJson));
    Lookup2("month", Str(p.month), "usage", us, "month");
    Lookup2("month", Str(p.month), "usage", us, "usage");
  }

  function ChartToJson(c: UsageChartData): Json {
    Obj([("title", Str(c.title)), ("unit", Str(c.unit)), ("data", Arr(EncodeAll(c.data, PointToJson)))])
  }

  function ChartFromJson(v: Json): (r: Option<UsageChartData>)
    ensures r.Some? ==> Get(v, "title") == Some(Str(r.value.title)) && Get(v, "unit") == Some(Str(r.value.unit))
  {
    var t := AsString(Get(v, "title"));
    var u := AsString(Get(v, "unit"));
    var d := Get(v, "data");
    if t.Some? && u.Some? && d.Some? && d.value.Arr? then
      match DecodeAll(d.value.items, PointFromJson)
      case Some(ps) => Some(UsageChartData(t.value, u.value, ps))
      case None => None
    else None
  }

  lemma ChartRoundTrip(c: UsageChartData)
    ensures ChartFromJson(ChartToJson(c)) == Some(c)
  {
    var d := Arr(EncodeAll(c.data, PointToJson));
    var v := ChartToJson(c);
    assert Get(v, "title") == Some(Str(c.title)) by {
      Lookup3("title", Str(c.title), "unit", Str(c.unit), "data", d, "title");
    }
    assert Get(v, "unit") == Some(Str(c.unit)) by {
      Lookup3("title", Str(c.title), "unit", Str(c.unit), "data", d, "unit");
    }
    assert Get(v, "data") == Some(d) by {
      Lookup3("title", Str(c.title), "unit", Str(c.unit), "data", d, "data");
    }
    assert DecodeAll(d.items, PointFromJson) == Some(c.data) by {
      PointsRoundTrip(c.data);
    }
    ChartFromFields(v, c.title, c.unit, d.items, c.data);
  }

  /** A value with the three fields of a chart reads as that chart. */
  lemma ChartFromFields(v: Json, t: string, u: string, items: seq<Json>, ps: seq<UsageDataPoint>)
    requires Get(v, "title") == Some(Str(t)) && Get(v, "unit") == Some(Str(u))
    requires Get(v, "data") == Some(Arr(items)) && DecodeAll(items, PointFromJson) == Some(ps)
    ensures ChartFromJson(v) == Some(UsageChartData(t, u, ps))
  {
  }

  lemma PointsRoundTrip(ps: seq<UsageDataPoint>)
    ensures DecodeAll(EncodeAll(ps, PointToJson), PointFromJson) == Some(ps)
  {
    forall i | 0 <= i < |ps| ensures PointFromJson(PointToJson(ps[i])) == Some(ps[i]) {
      PointRoundTrip(ps[i]);
    }
    DecodeEncodeAll(ps, PointToJson, PointFromJson);
  }

  function ItemToJson(x: LineItem): Json {
    Obj([("description", Str(x.description)), ("amount", Number(x.amount))])
  }

  function ItemFromJson(v: Json): (r: Option<LineItem>)
    ensures r.Some? ==> Get(v, "description") == Some(Str(r.value.description)) && Get(v, "amount") == Some(Number(r.value.amount))
  {
    var d := AsString(Get(v, "description"));
    var a := AsNumber(Get(v, "amount"));
    if d.Some? && a.Some? then Some(LineItem(d.value, a.value)) else None
  }

  lemma ItemRoundTrip(x: LineItem)
    ensures ItemFromJson(ItemToJson(x)) == Some(x)
  {
    Lookup2("description", Str(x.description), "amount", Number(x.amount), "description");
    Lookup2("description", Str(x.description), "amount", Number(x.amount), "amount");
  }

  function QuestionToJson(q: VerificationQuestion): Json {
    Obj([("field", Str(q.field)), ("question", Str(q.question))])
  }

  function QuestionFromJson(v: Json): (r: Option<VerificationQuestion>)
    ensures r.Some? ==> Get(v, "field") == Some(Str(r.value.field)) && Get(v, "question") == Some(Str(r.value.question))
  {
    var f := AsString(Get(v, "field"));
    var q := AsString(Get(v, "question"));
    if f.Some? && q.Some? then Some(VerificationQuestion(f.value, q.value)) else None
  }

  lemma QuestionRoundTrip(q: VerificationQuestion)
    ensures QuestionFromJson(QuestionToJson(q)) == Some(q)
  {
    Lookup2("field", Str(q.field), "question", Str(q.question), "field");
    Lookup2("field", Str(q.field), "question", Str(q.question), "question");
  }

  /** An optional text field read back: absent is `None`, text is the
      text, anything else does not decode. */
  function ReadText(m: map<string, Json>, k: string): (r: Option<Option<string>>)
    ensures k !in m ==> r == Some(None)
    ensures k in m && m[k].Str? ==> r == Some(Some(m[k].s))
    ensures k in m && !m[k].Str? ==> r.None?
  {
    if k !in m then Some(None)
    else if m[k].Str? then Some(Some(m[k].s))
    else None
  }

  /** The fields every record has, as JSON. */
  function RequiredJson(b: BillData): map<string, Json> {
    map[
      "id" := Str(b.id),
      "analyzedAt" := Str(b.analyzedAt),
      "accountNumber" := Str(b.accountNumber),
      "totalCurrentCharges" := Number(b.totalCurrentCharges),
      "usageCharts" := Arr(EncodeAll(b.usageCharts, ChartToJson)),
      "lineItems" := Arr(EncodeAll(b.lineItems, ItemToJson)),
      "confidenceScore" := Number(b.confidenceScore),
      "confidenceReasoning" := Str(b.confidenceReasoning)
    ]
  }

  /** The names of the fields every record has. */
  const RequiredNames: set<string> :=
    {"id", "analyzedAt", "accountNumber", "totalCurrentCharges", "usageCharts", "lineItems",
     "confidenceScore", "confidenceReasoning"}

  /** The optional text fields of a record. */
  const OptionalNames: set<string> :=
    {"accountName", "serviceAddress", "statementDate", "servicePeriodStart", "servicePeriodEnd", "dueDate", "rawResponse"}

  /** The optional text field of a record that is stored under `k`. */
  function OptionalValue(b: BillData, k: string): Option<string> {
    if k == "accountName" then b.accountName
    else if k == "serviceAddress" then b.serviceAddress
    else if k == "statementDate" then b.statementDate
    else if k == "servicePeriodStart" then b.servicePeriodStart
    else if k == "servicePeriodEnd" then b.servicePeriodEnd
    else if k == "dueDate" then b.dueDate
    else if k == "rawResponse" then b.rawResponse
    else None
  }

  /** The optional text fields present in a record. */
  function OptionalJson(b: BillData): map<string, Json> {
    map k | k in OptionalNames && OptionalValue(b, k).Some? :: Str(OptionalValue(b, k).value)
  }

  /** The record as the JSON object it is stored as. */
  function BillToJson(b: BillData): map<string, Json> {
    RequiredJson(b) + OptionalJson(b) + QuestionsJson(b)
  }

  /** The verification questions, when the record has them. */
  function QuestionsJson(b: BillData): map<string, Json> {
    if b.verificationQuestions.Some? then
      map["verificationQuestions" := Arr(EncodeAll(b.verificationQuestions.value, QuestionToJson))]
    else map[]
  }

  /** The JSON object read as a record: `None` when a required field is
      missing or mistyped, or an optional one is present but mistyped. */
  function BillFromJson(m: map<string, Json>): Option<BillData> {
    var id := AsString(if "id" in m then Some(m["id"]) else None);
    var at := AsString(if "analyzedAt" in m then Some(m["analyzedAt"]) else None);
    var acct := AsString(if "accountNumber" in m then Some(m["accountNumber"]) else None);
    var total := AsNumber(if "totalCurrentCharges" in m then Some(m["totalCurrentCharges"]) else None);
    var score := AsNumber(if "confidenceScore" in m then Some(m["confidenceScore"]) else None);
    var why := AsString(if "confidenceReasoning" in m then Some(m["confidenceReasoning"]) else None);
    var charts := if "usageCharts" in m && m["usageCharts"].Arr? then DecodeAll(m["usageCharts"].items, ChartFromJson) else None;
    var items := if "lineItems" in m && m["lineItems"].Arr? then DecodeAll(m["lineItems"].items, ItemFromJson) else None;
    var qs :=
      if "verificationQuestions" !in m then Some(None)
      else if m["verificationQuestions"].Arr? then
        (match DecodeAll(m["verificationQuestions"].items, QuestionFromJson)
         case Some(q) => Some(Some(q))
         case None => None)
      else None;
    var name := ReadText(m, "accountName");
    var addr := ReadText(m, "serviceAddress");
    var stmt := ReadText(m, "statementDate");
    var start := ReadText(m, "servicePeriodStart");
    var end := ReadText(m, "servicePeriodEnd");
    var due := ReadText(m, "dueDate");
    var raw := ReadText(m, "rawResponse");
    if && id.Some? && at.Some? && acct.Some? && total.Some? && score.Some? && why.Some?
       && charts.Some? && items.Some? && qs.Some?
       && name.Some? && addr.Some? && stmt.Some? && start.Some? && end.Some? && due.Some? && raw.Some?
    then
      Some(BillData(id.value, at.value, name.value, acct.value, addr.value, stmt.value, start.value, end.value,
                    total.value, due.value, charts.value, items.value, score.value, why.value, qs.value, raw.value))
    else None
  }

  /** Each optional field of a record is stored under its own name. */
  lemma OptionalValues(b: BillData)
    ensures OptionalValue(b, "accountName") == b.accountName
    ensures OptionalValue(b, "serviceAddress") == b.serviceAddress
    ensures OptionalValue(b, "statementDate") == b.statementDate
    ensures OptionalValue(b, "servicePeriodStart") == b.servicePeriodStart
    ensures OptionalValue(b, "servicePeriodEnd") == b.servicePeriodEnd
    ensures OptionalValue(b, "dueDate") == b.dueDate
    ensures OptionalValue(b, "rawResponse") == b.rawResponse
  {
  }

  /** No name is both required and optional, and the questions are neither. */
  lemma NamesApart()
    ensures RequiredNames !! OptionalNames
    ensures "verificationQuestions" !in RequiredNames && "verificationQuestions" !in OptionalNames
  {
  }

  /** Where each required field of a record sits in its JSON object. */
  predicate RequiredStored(m: map<string, Json>, b: BillData) {
    && "id" in m && m["id"] == Str(b.id)
    && "analyzedAt" in m && m["analyzedAt"] == Str(b.analyzedAt)
    && "accountNumber" in m && m["accountNumber"] == Str(b.accountNumber)
    && "totalCurrentCharges" in m && m["totalCurrentCharges"] == Number(b.totalCurrentCharges)
    && "confidenceScore" in m && m["confidenceScore"] == Number(b.confidenceScore)
    && "confidenceReasoning" in m && m["confidenceReasoning"] == Str(b.confidenceReasoning)
    && "usageCharts" in m && m["usageCharts"].Arr? && DecodeAll(m["usageCharts"].items, ChartFromJson) == Some(b.usageCharts)
    && "lineItems" in m && m["lineItems"].Arr? && DecodeAll(m["lineItems"].items, ItemFromJson) == Some(b.lineItems)
  }

  /** Where the optional text fields sit. */
  predicate OptionalStored(m: map<string, Json>, b: BillData) {
    forall k :: k in OptionalNames ==> ReadText(m, k) == Some(OptionalValue(b, k))
  }

  /** Where the verification questions sit. */
  predicate QuestionsStored(m: map<string, Json>, b: BillData) {
    && (b.verificationQuestions.None? ==> "verificationQuestions" !in m)
    && (b.verificationQuestions.Some? ==>
          "verificationQuestions" in m && m["verificationQuestions"].Arr? &&
          DecodeAll(m["verificationQuestions"].items, QuestionFromJson) == Some(b.verificationQuestions.value))
  }

  /** Where each field of a record sits in its JSON object. */
  predicate Stores(m: map<string, Json>, b: BillData) {
    RequiredStored(m, b) && OptionalStored(m, b) && QuestionsStored(m, b)
  }

  /** Two objects that agree on the given names store the same parts. */
  lemma RequiredStoredAgree(m: map<string, Json>, m': map<string, Json>, b: BillData)
    requires RequiredStored(m, b)
    requires forall k :: k in m && k !in OptionalNames && k != "verificationQuestions" ==> k in m' && m'[k] == m[k]
    ensures RequiredStored(m', b)
  {
  }

  lemma OptionalStoredAgree(m: map<string, Json>, m': map<string, Json>, b: BillData)
    requires OptionalStored(m, b)
    requires forall k :: k in OptionalNames ==> ReadText(m', k) == ReadText(m, k)
    ensures OptionalStored(m', b)
  {
  }

  lemma RequiredJsonStored(b: BillData)
    ensures RequiredStored(RequiredJson(b), b)
  {
    var m := RequiredJson(b);
    assert "id" in m && m["id"] == Str(b.id);
    assert "analyzedAt" in m && m["analyzedAt"] == Str(b.analyzedAt);
    assert "accountNumber" in m && m["accountNumber"] == Str(b.accountNumber);
    assert "totalCurrentCharges" in m && m["totalCurrentCharges"] == Number(b.totalCurrentCharges);
    assert "confidenceScore" in m && m["confidenceScore"] == Number(b.confidenceScore);
    assert "confidenceReasoning" in m && m["confidenceReasoning"] == Str(b.confidenceReasoning);
    assert "usageCharts" in m && m["usageCharts"] == Arr(EncodeAll(b.usageCharts, ChartToJson));
    assert "lineItems" in m && m["lineItems"] == Arr(EncodeAll(b.lineItems, ItemToJson));
    ChartsRoundTrip(b.usageCharts);
    ItemsRoundTrip(b.lineItems);
  }

  lemma ChartsRoundTrip(cs: seq<UsageChartData>)
    ensures DecodeAll(EncodeAll(cs, ChartToJson), ChartFromJson) == Some(cs)
  {
    forall i | 0 <= i < |cs| ensures ChartFromJson(ChartToJson(cs[i])) == Some(cs[i]) {
      ChartRoundTrip(cs[i]);
    }
    DecodeEncodeAll(cs, ChartToJson, ChartFromJson);
  }

  lemma ItemsRoundTrip(xs: seq<LineItem>)
    ensures DecodeAll(EncodeAll(xs, ItemToJson), ItemFromJson) == Some(xs)
  {
    forall i | 0 <= i < |xs| ensures ItemFromJson(ItemToJson(xs[i])) == Some(xs[i]) {
      ItemRoundTrip(xs[i]);
    }
    DecodeEncodeAll(xs, ItemToJson, ItemFromJson);
  }

  /** The keys of the two parts of a record's object. */
  lemma JsonKeys(b: BillData)
    ensures RequiredJson(b).Keys == RequiredNames
    ensures OptionalJson(b).Keys <= OptionalNames
  {
  }

  /** The optional part stores the optional fields. */
  lemma OptionalJsonStored(b: BillData)
    ensures OptionalStored(OptionalJson(b), b)
  {
  }

  /** The questions part stores the questions. */
  lemma QuestionsJsonStored(b: BillData)
    ensures QuestionsStored(QuestionsJson(b), b)
    ensures forall k :: k in QuestionsJson(b) ==> k == "verificationQuestions"
  {
    if b.verificationQuestions.Some? {
      var qs := b.verificationQuestions.value;
      forall i | 0 <= i < |qs| ensures QuestionFromJson(QuestionToJson(qs[i])) == Some(qs[i]) {
        QuestionRoundTrip(qs[i]);
      }
      DecodeEncodeAll(qs, QuestionToJson, QuestionFromJson);
    }
  }

  /** An object that stores a record's fields reads back as that record. */
  lemma ReadStored(m: map<string, Json>, b: BillData)
    requires Stores(m, b)
    ensures BillFromJson(m) == Some(b)
  {
    ReadOptionalTexts(m, b);
  }

  /** Each optional text field reads back as the record's. */
  lemma ReadOptionalTexts(m: map<string, Json>, b: BillData)
    requires OptionalStored(m, b)
    ensures ReadText(m, "accountName") == Some(b.accountName) && ReadText(m, "serviceAddress") == Some(b.serviceAddress)
    ensures ReadText(m, "statementDate") == Some(b.statementDate) && ReadText(m, "dueDate") == Some(b.dueDate)
    ensures ReadText(m, "servicePeriodStart") == Some(b.servicePeriodStart)
    ensures ReadText(m, "servicePeriodEnd") == Some(b.servicePeriodEnd)
    ensures ReadText(m, "rawResponse") == Some(b.rawResponse)
  {
    OptionalValues(b);
    assert "accountName" in OptionalNames && "serviceAddress" in OptionalNames && "statementDate" in OptionalNames;
    assert "servicePeriodStart" in OptionalNames && "servicePeriodEnd" in OptionalNames;
    assert "dueDate" in OptionalNames && "rawResponse" in OptionalNames;
  }

  /** The three parts of an object, on disjoint names, each keep what
      they store in the whole. */
  lemma PartsStore(r: map<string, Json>, o: map<string, Json>, q: map<string, Json>, b: BillData)
    requires RequiredStored(r, b) && OptionalStored(o, b) && QuestionsStored(q, b)
    requires forall k :: k in r ==> k !in OptionalNames && k != "verificationQuestions"
    requires forall k :: k in o ==> k in OptionalNames
    requires forall k :: k in q ==> k == "verificationQuestions"
    requires "verificationQuestions" !in OptionalNames
    ensures Stores(r + o + q, b)
  {
    var m := r + o + q;
    forall k | k in r && k !in OptionalNames && k != "verificationQuestions" ensures k in m && m[k] == r[k] {
    }
    RequiredStoredAgree(r, m, b);
    forall k | k in OptionalNames ensures ReadText(m, k) == ReadText(o, k) {
    }
    OptionalStoredAgree(o, m, b);
  }

  /** The encoded object stores the record. */
  lemma EncodedStores(b: BillData)
    ensures Stores(BillToJson(b), b)
  {
    RequiredJsonStored(b);
    OptionalJsonStored(b);
    QuestionsJsonStored(b);
    JsonKeys(b);
    NamesApart();
    PartsStore(RequiredJson(b), OptionalJson(b), QuestionsJson(b), b);
  }

  /** Reading a record back from its JSON object gives the record. */
  lemma BillRoundTrip(b: BillData)
    ensures BillFromJson(BillToJson(b)) == Some(b)
  {
    EncodedStores(b);
    ReadStored(BillToJson(b), b);
  }
}
