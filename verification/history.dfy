/** The app's bill history: assembling a new record from a normalised
    response, the 20-entry list, and selecting, deleting, updating and
    resetting. The clock's readings and the provider's reply are inputs. */
module History {
  import opened Wrappers
  import opened Json
  import opened Types
  import Text
  import Schema
  import PostProcess

  // ---- assembling a record ----

  /** The id a record analysed at `now` (milliseconds) gets: `bill-<now>`. */
  function BillId(now: nat): (id: string)
    ensures |id| > 5 && id[..5] == "bill-"
    ensures Text.AllDigits(id[5..])
  {
    "bill-" + Text.NatToString(now)
  }

  /** Two different instants give two different ids. */
  lemma BillIdInjective(a: nat, b: nat)
    requires a != b
    ensures BillId(a) != BillId(b)
  {
    assert BillId(a)[5..] == Text.NatToString(a);
    assert BillId(b)[5..] == Text.NatToString(b);
    Text.NatToStringInjective(a, b);
  }

  /** The names the app sets on top of the parsed fields. */
  const Stamped: set<string> := {"id", "analyzedAt", "rawResponse"}

  /** `{...parsedData, id, analyzedAt, rawResponse}`: the parsed fields with
      the three stamped ones written last, so they win. */
  function AssembleJson(parsed: map<string, Json>, id: string, at: string, raw: string): (r: map<string, Json>)
    ensures "id" in r && r["id"] == Str(id)
    ensures "analyzedAt" in r && r["analyzedAt"] == Str(at)
    ensures "rawResponse" in r && r["rawResponse"] == Str(raw)
    ensures r.Keys == parsed.Keys + Stamped
    ensures r - Stamped == parsed - Stamped
  {
    parsed["id" := Str(id)]["analyzedAt" := Str(at)]["rawResponse" := Str(raw)]
  }

  /** No schema property is stamped. */
  lemma StampedOutsideSchema(k: string)
    requires k in Schema.SchemaKeys
    ensures k !in Stamped
  {
  }

  /** A normalised response has only schema properties, so stamping
      overrides none of its fields: every one of them reaches the record. */
  lemma AssembleKeepsNormalized(raw: Json, id: string, at: string, reply: string)
    requires PostProcess.NormalizeSafe(raw)
    ensures var m := PostProcess.Normalize(raw);
            forall k :: k in m ==> k in AssembleJson(m, id, at, reply) && AssembleJson(m, id, at, reply)[k] == m[k]
  {
    var m := PostProcess.Normalize(raw);
    var r := AssembleJson(m, id, at, reply);
    forall k | k in m ensures k in r && r[k] == m[k] {
      StampedOutsideSchema(k);
      assert k in r - Stamped;
    }
  }

  /** The same assembly on a typed record. */
  function AssembleBill(p: BillData, id: string, at: string, raw: string): (b: BillData)
    ensures b.id == id && b.analyzedAt == at && b.rawResponse == Some(raw)
    ensures b.(id := p.id, analyzedAt := p.analyzedAt, rawResponse := p.rawResponse) == p
  {
    p.(id := id, analyzedAt := at, rawResponse := Some(raw))
  }

  /** Stamping an object that stores a record stores the stamped record. */
  lemma StampedStores(m: map<string, Json>, p: BillData, id: string, at: string, raw: string)
    requires Stores(m, p)
    ensures Stores(AssembleJson(m, id, at, raw), AssembleBill(p, id, at, raw))
  {
    StampedRequired(m, p, id, at, raw);
    StampedOptional(m, p, id, at, raw);
    StampedQuestions(m, p, id, at, raw);
  }

  lemma StampedRequired(m: map<string, Json>, p: BillData, id: string, at: string, raw: string)
    requires RequiredStored(m, p)
    ensures RequiredStored(AssembleJson(m, id, at, raw), AssembleBill(p, id, at, raw))
  {
    var r := AssembleJson(m, id, at, raw);
    assert "accountNumber" in r - Stamped && "totalCurrentCharges" in r - Stamped;
    assert "confidenceScore" in r - Stamped && "confidenceReasoning" in r - Stamped;
    assert "usageCharts" in r - Stamped && "lineItems" in r - Stamped;
  }

  lemma StampedOptional(m: map<string, Json>, p: BillData, id: string, at: string, raw: string)
    requires OptionalStored(m, p)
    ensures OptionalStored(AssembleJson(m, id, at, raw), AssembleBill(p, id, at, raw))
  {
    var r := AssembleJson(m, id, at, raw);
    var b := AssembleBill(p, id, at, raw);
    forall k | k in OptionalNames ensures ReadText(r, k) == Some(OptionalValue(b, k)) {
      if k == "rawResponse" {
        OptionalValues(b);
      } else {
        assert k !in Stamped;
        assert (k in r <==> k in m) && (k in r ==> r[k] == m[k]) by {
          assert (k in r <==> k in r - Stamped) && (k in m <==> k in m - Stamped);
        }
        assert OptionalValue(b, k) == OptionalValue(p, k);
      }
    }
  }

  lemma StampedQuestions(m: map<string, Json>, p: BillData, id: string, at: string, raw: string)
    requires QuestionsStored(m, p)
    ensures QuestionsStored(AssembleJson(m, id, at, raw), AssembleBill(p, id, at, raw))
  {
    var r := AssembleJson(m, id, at, raw);
    assert "verificationQuestions" !in Stamped;
    assert "verificationQuestions" in r <==> "verificationQuestions" in r - Stamped;
    assert "verificationQuestions" in m <==> "verificationQuestions" in m - Stamped;
  }

  /** The JSON and the typed assembly agree: reading back the stamped
      object of a record gives the stamped record. */
  lemma AssembleAgrees(p: BillData, id: string, at: string, raw: string)
    ensures BillFromJson(AssembleJson(BillToJson(p), id, at, raw)) == Some(AssembleBill(p, id, at, raw))
  {
    EncodedStores(p);
    StampedStores(BillToJson(p), p, id, at, raw);
    ReadStored(AssembleJson(BillToJson(p), id, at, raw), AssembleBill(p, id, at, raw));
  }

  // ---- the app state ----

  datatype AppState = AppState(
    capturedImage: Option<string>,
    billData: Option<BillData>,
    history: seq<BillData>,
    error: Option<string>,
    isLoading: bool
  )

  /** What the provider call ended with: a parsed record and the reply
      text, or a thrown value (`Some` message when it was an `Error`). */
  datatype Outcome = Analyzed(parsed: BillData, rawResponse: string) | Threw(message: Option<string>)

  const NoImage: string := "No image to analyze."
  const UnknownError: string := "An unknown error occurred during analysis."

  /** The number of records the history keeps. */
  const HistoryLimit: nat := 20

  /** A captured image is a truthy data URL: present and not empty. */
  predicate HasImage(s: AppState) {
    s.capturedImage.Some? && s.capturedImage.value != ""
  }

  function Min(a: nat, b: nat): nat { if a < b then a else b }

  /** The history after adding `b`: `b` first, then at most 19 of the
      previous records, newest first. */
  function Push(h: seq<BillData>, b: BillData): (r: seq<BillData>)
    ensures |r| == Min(HistoryLimit, |h| + 1)
    ensures r[0] == b
    ensures forall i :: 1 <= i < |r| ==> r[i] == h[i - 1]
  {
    [b] + h[..Min(HistoryLimit - 1, |h|)]
  }

  /** Pressing "Analyze Bill" and the call completing with `outcome`; the
      clock reads `now` milliseconds and the ISO time `at`. */
  function Analyze(s: AppState, outcome: Outcome, now: nat, at: string): (r: AppState)
    ensures !HasImage(s) ==> r == s.(error := Some(NoImage))
    ensures HasImage(s) && outcome.Analyzed? ==>
              && r.billData == Some(AssembleBill(outcome.parsed, BillId(now), at, outcome.rawResponse))
              && r.history == Push(s.history, r.billData.value)
              && r.capturedImage.None? && r.error.None? && !r.isLoading
    ensures HasImage(s) && outcome.Threw? ==>
              && r.error == Some(if outcome.message.Some? then outcome.message.value else UnknownError)
              && r.(error := s.error, isLoading := s.isLoading) == s && !r.isLoading
  {
    if !HasImage(s) then s.(error := Some(NoImage))
    else
      match outcome
      case Analyzed(parsed, reply) =>
        var b := AssembleBill(parsed, BillId(now), at, reply);
        AppState(None, Some(b), Push(s.history, b), None, false)
      case Threw(message) =>
        s.(error := Some(message.GetOr(UnknownError)), isLoading := false)
  }

  /** The index of the first record with id `id`, if any. */
  function FindById(h: seq<BillData>, id: string): (r: Option<nat>)
    ensures r.Some? ==> r.value < |h| && h[r.value].id == id && forall j :: 0 <= j < r.value ==> h[j].id != id
    ensures r.None? <==> forall j :: 0 <= j < |h| ==> h[j].id != id
  {
    if |h| == 0 then None
    else if h[0].id == id then Some(0)
    else
      match FindById(h[1..], id)
      case Some(i) => Some(i + 1)
      case None => None
  }

  /** `handleSelectHistory`: the first record with that id becomes current
      and the image and error are cleared; an unknown id changes nothing. */
  function Select(s: AppState, id: string): (r: AppState)
    ensures (forall j :: 0 <= j < |s.history| ==> s.history[j].id != id) ==> r == s
    ensures (exists j :: 0 <= j < |s.history| && s.history[j].id == id) ==>
              && r.billData.Some? && r.billData.value in s.history && r.billData.value.id == id
              && r.capturedImage.None? && r.error.None?
              && r.history == s.history && r.isLoading == s.isLoading
  {
    match FindById(s.history, id)
    case Some(i) => s.(billData := Some(s.history[i]), capturedImage := None, error := None)
    case None => s
  }

  /** The records whose id is not `id`, in order. */
  function RemoveId(h: seq<BillData>, id: string): (r: seq<BillData>)
    ensures forall x :: x in r <==> x in h && x.id != id
    ensures |r| <= |h|
  {
    if |h| == 0 then []
    else if h[0].id == id then RemoveId(h[1..], id)
    else [h[0]] + RemoveId(h[1..], id)
  }

  /** `handleDeleteHistory`: every record with that id goes; the current
      record is cleared exactly when it has that id. */
  function Delete(s: AppState, id: string): (r: AppState)
    ensures forall x :: x in r.history <==> x in s.history && x.id != id
    ensures r.billData.None? <==> s.billData.None? || s.billData.value.id == id
    ensures r.billData.Some? ==> r.billData == s.billData
    ensures r.(history := s.history, billData := s.billData) == s
  {
    s.(history := RemoveId(s.history, id),
       billData := if s.billData.Some? && s.billData.value.id == id then None else s.billData)
  }

  /** Every record with `b`'s id replaced by `b`. */
  function ReplaceId(h: seq<BillData>, b: BillData): (r: seq<BillData>)
    ensures |r| == |h|
    ensures forall i :: 0 <= i < |h| ==> r[i] == if h[i].id == b.id then b else h[i]
  {
    seq(|h|, i requires 0 <= i < |h| => if h[i].id == b.id then b else h[i])
  }

  /** `handleBillDataUpdate`: the edited record becomes current and replaces
      every history record with its id. */
  function Update(s: AppState, b: BillData): (r: AppState)
    ensures r.billData == Some(b)
    ensures |r.history| == |s.history|
    ensures forall i :: 0 <= i < |s.history| && s.history[i].id != b.id ==> r.history[i] == s.history[i]
    ensures forall i :: 0 <= i < |s.history| && s.history[i].id == b.id ==> r.history[i] == b
    ensures r.(history := s.history, billData := s.billData) == s
  {
    s.(billData := Some(b), history := ReplaceId(s.history, b))
  }

  /** `resetState`: back to the start screen; the history stays. */
  function Reset(s: AppState): (r: AppState)
    ensures r.capturedImage.None? && r.billData.None? && r.error.None?
    ensures r.history == s.history && r.isLoading == s.isLoading
  {
    s.(capturedImage := None, billData := None, error := None)
  }

  // ---- properties ----

  /** The history never holds more than 20 records once it starts within
      that bound, whatever the user does. */
  predicate Bounded(s: AppState) { |s.history| <= HistoryLimit }

  lemma AnalyzeBounded(s: AppState, outcome: Outcome, now: nat, at: string)
    requires Bounded(s)
    ensures Bounded(Analyze(s, outcome, now, at))
  {
  }

  lemma EditsBounded(s: AppState, id: string, b: BillData)
    requires Bounded(s)
    ensures Bounded(Select(s, id)) && Bounded(Delete(s, id)) && Bounded(Update(s, b)) && Bounded(Reset(s))
  {
  }

  /** Even an over-long history is cut to 20 by one successful analysis. */
  lemma AnalyzeCaps(s: AppState, p: BillData, reply: string, now: nat, at: string)
    requires HasImage(s)
    ensures |Analyze(s, Analyzed(p, reply), now, at).history| <= HistoryLimit
  {
  }

  /** Right after an analysis, selecting the new record's id changes
      nothing: it is already current and is the first with that id. */
  lemma SelectNewest(s: AppState, p: BillData, reply: string, now: nat, at: string)
    requires HasImage(s)
    ensures var r := Analyze(s, Analyzed(p, reply), now, at);
            Select(r, BillId(now)) == r
  {
    var r := Analyze(s, Analyzed(p, reply), now, at);
    assert r.history[0].id == BillId(now);
    assert FindById(r.history, BillId(now)) == Some(0);
  }

  /** Selecting makes the first record with that id current. */
  lemma SelectFirst(s: AppState, i: nat)
    requires i < |s.history|
    requires forall j :: 0 <= j < i ==> s.history[j].id != s.history[i].id
    ensures Select(s, s.history[i].id).billData == Some(s.history[i])
  {
    var r := FindById(s.history, s.history[i].id);
    assert r.Some?;
    assert r.value == i;
  }

  /** Deleting keeps the other records in their order. */
  lemma {:induction false} RemoveIdAppend(a: seq<BillData>, b: seq<BillData>, id: string)
    ensures RemoveId(a + b, id) == RemoveId(a, id) + RemoveId(b, id)
    decreases |a|
  {
    if |a| == 0 {
      assert a + b == b;
    } else {
      assert (a + b)[1..] == a[1..] + b;
      RemoveIdAppend(a[1..], b, id);
    }
  }

  /** A history without that id is left as it was. */
  lemma {:induction false} RemoveIdAbsent(h: seq<BillData>, id: string)
    requires forall j :: 0 <= j < |h| ==> h[j].id != id
    ensures RemoveId(h, id) == h
    decreases |h|
  {
    if |h| > 0 {
      RemoveIdAbsent(h[1..], id);
    }
  }

  /** The number of records with a given id. */
  function CountId(h: seq<BillData>, id: string): nat {
    if |h| == 0 then 0 else (if h[0].id == id then 1 else 0) + CountId(h[1..], id)
  }

  /** Deleting removes exactly the records with that id. */
  lemma {:induction false} RemoveIdCount(h: seq<BillData>, id: string)
    ensures |RemoveId(h, id)| + CountId(h, id) == |h|
    decreases |h|
  {
    if |h| > 0 {
      RemoveIdCount(h[1..], id);
    }
  }

  /** Deleting twice is deleting once, and a deleted id cannot be
      selected afterwards. */
  lemma DeleteIdempotent(s: AppState, id: string)
    ensures Delete(Delete(s, id), id) == Delete(s, id)
    ensures Select(Delete(s, id), id) == Delete(s, id)
  {
    var h := RemoveId(s.history, id);
    forall j | 0 <= j < |h| ensures h[j].id != id {
      assert h[j] in h;
    }
    RemoveIdAbsent(h, id);
  }

  /** Updating then deleting the same id is deleting it. */
  lemma {:induction false} RemoveAfterReplace(h: seq<BillData>, b: BillData)
    ensures RemoveId(ReplaceId(h, b), b.id) == RemoveId(h, b.id)
    decreases |h|
  {
    if |h| > 0 {
      assert ReplaceId(h, b)[1..] == ReplaceId(h[1..], b);
      RemoveAfterReplace(h[1..], b);
    }
  }

  lemma DeleteAfterUpdate(s: AppState, b: BillData)
    ensures Delete(Update(s, b), b.id).history == Delete(s, b.id).history
    ensures Delete(Update(s, b), b.id).billData.None?
  {
    RemoveAfterReplace(s.history, b);
  }

  /** After an update, selecting that id gives the updated record when
      the history has one. */
  lemma SelectAfterUpdate(s: AppState, b: BillData)
    requires exists j :: 0 <= j < |s.history| && s.history[j].id == b.id
    ensures Select(Update(s, b), b.id).billData == Some(b)
  {
    var r := FindById(Update(s, b).history, b.id);
    assert r.Some?;
  }

  /** Updating with the same record twice is updating once. */
  lemma UpdateIdempotent(s: AppState, b: BillData)
    ensures Update(Update(s, b), b) == Update(s, b)
  {
  }

  /** Resetting twice is resetting once. */
  lemma ResetIdempotent(s: AppState)
    ensures Reset(Reset(s)) == Reset(s)
  {
  }
}
