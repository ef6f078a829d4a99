# Bill reader: the normaliser and its surroundings, in Dafny

The bill reader photographs a utility bill and asks an AI provider to read it.
It then turns the provider's JSON reply into a bill record, which the user can
inspect, correct, export as CSV and keep in a short history. This project
models the deterministic part of that pipeline and proves properties of the
model:

- **The normaliser.** `sanitizeAiResponse` and `postProcessData` in
  `services/aiService.ts`.
  - It unwraps a `properties` envelope.
  - It resolves canonical field names through an alias table, case-insensitively
    and ignoring underscores.
  - It copies through other schema fields.
  - It drops malformed usage charts and regroups "flattened" usage rows
    (`"Oct, 2017"`) by month.
  - It fills defaults, filters line items, and turns numeric text into numbers.
- **The record types** of `types.ts` and their JSON form.
- **The usage table** (`components/EditableUsageTable.tsx`):
  - the sorted year columns;
  - the cell edit;
  - the matcher that finds the verification question for a cell.
- **The CSV exports** (`utils/csv.ts`): cell escaping after section 2 of
  RFC 4180, the line-item and usage files, and their file names. A CSV reader
  is modelled as well, so that every export can be stated as reading back to
  its rows.
- **The app's history**: the analyse / select / delete / update / reset
  transitions of `App.tsx`, including the 20-record cap.
- **The bill view** (`components/BillDataDisplay.tsx`): the chart replacement
  after a table edit, the `N/A` fallback of an info field, and the
  service-period label.

The modules, in dependency order:

| file | module | role |
|---|---|---|
| wrappers.dfy | Wrappers | `Option` |
| text.dfy | Text | character classes, decimal digits, character order |
| json.dfy | Json | JSON values with ordered object fields; JavaScript truthiness; property lookup |
| schema.dfy | Schema | the schema's property names, the alias table, key normalisation |
| numparse.dfy | NumParse | `parseFloat` over decimal reals, the currency strip, `parseFloat(String(v)) \|\| 0` |
| currency_examples.dfy | CurrencyExamples | worked examples of the currency coercion |
| monthlabel.dfy | MonthLabel | the month-label pattern `([a-zA-Z]{3,})\.?\s*,?\s*(\d{4})` |
| resolve.dfy | Resolve | `findValue`, the key loop, copy-through |
| charts.dfy | Charts | chart filtering, nested-shape test, flattened repair |
| sanitize.dfy | Sanitize | `sanitizeAiResponse` |
| postprocess.dfy | PostProcess | `postProcessData`, and the two passes together (`Normalize`) |
| types.dfy | Types | the record types and their JSON form |
| history.dfy | History | record assembly and the app state transitions |
| usagetable.dfy | UsageTable | years, cell edit, question matcher |
| csv.dfy | Csv | escaping, rendering, reading back, the two exports |
| display.dfy | Display | chart replacement, info-field text, service period |

Numbers are `Num = Finite(real) | Infinite(negative) | NaN`.
`parseFloat` is modelled over exact decimals, not IEEE doubles. A JSON object
is an ordered sequence of fields, because the normaliser's results depend on
order in two places:
- the first matching raw key wins (services/aiService.ts:52);
- months come out in first-insertion order (services/aiService.ts:101).

Property access reads the first field with the name.

## Model

| member | source | states |
|---|---|---|
| Json.Entries | services/aiService.ts:52 | `Object.keys` / `for..in` over a value: an object's own fields in order, an array's elements under their decimal indices, nothing for a primitive |
| Json.Lookup | services/aiService.ts:53 | a name is found iff some field has it, and the value found is that of the first such field |
| Json.SetField | services/aiService.ts:78 | `{...obj, k: x}`: afterwards `k` reads `x`, every other name reads as before, and an existing field keeps its position |
| Schema.Norm | services/aiService.ts:52 | the model's `Norm` of `k.toLowerCase().replace(/_/g, '')` leaves no underscore and no upper-case letter and never lengthens the key; a key without underscores is lower-cased character by character, keeping its length |
| Schema.NormAppend | services/aiService.ts:52 | key normalisation works character by character, so it distributes over concatenation |
| Schema.NormChar | services/aiService.ts:52 | on one character the normal form drops `_` and lower-cases anything else; with `NormAppend` this fixes the normal form of every key |
| Schema.NormDropsUnderscore | services/aiService.ts:52 | an underscore anywhere in a key is removed and changes nothing else |
| Schema.LowerChar | services/aiService.ts:52 | lower-casing maps A-Z to a-z and the Kelvin sign to `k`, and leaves every other character alone |
| Schema.CanonicalNamesAreSchemaKeys | services/aiService.ts:35-47 | every canonical name of the alias table is a schema property, and neither service-period date is in the table |
| Schema.SchemaKeysOutsideTable | prompts/prompt_v2.ts:8-63 | the only schema properties without an alias entry are `servicePeriodStart` and `servicePeriodEnd` |
| Resolve.FindKey | services/aiService.ts:52 | the raw key found is the first whose normal form equals the candidate's; none is found iff no key normalises to it |
| Resolve.CandidateValueMatches | services/aiService.ts:52-55 | a candidate yields nothing iff no raw key matches it; otherwise it yields the value of the first matching key |
| Resolve.FindValue | services/aiService.ts:49-58 | the value comes from the first candidate, in table order, that yields one; nothing iff no candidate yields |
| Resolve.ResolveFields | services/aiService.ts:60-65 | a canonical field is set iff `findValue` finds a value for it, and it is set to that value; no other field is set |
| Resolve.LiteralCanonicalResolved | services/aiService.ts:50-54 | a canonical name present literally in the source is always resolved |
| Resolve.ResolveFieldsRespell | services/aiService.ts:52 | respelling raw keys in case or underscores (same normal forms, same values) does not change the resolved fields |
| Resolve.CopyThrough | services/aiService.ts:67-71 | copy-through adds exactly the schema properties present under their literal names and not already set, with the source's value, and keeps every field already set |
| Resolve.CopyThroughAddsOnlyServicePeriod | services/aiService.ts:67-71 | a field filled by copy-through rather than the key loop is one of the two service-period dates |
| Resolve.FieldsAreSchemaKeys | services/aiService.ts:60-71 | every field of the result is a schema property; raw keys outside the schema never appear |
| Resolve.ArrayEntriesYieldNothing | services/aiService.ts:60-71 | an array source has only index keys, so neither loop finds a field |
| NumParse.ParseFloatIsNaN | services/aiService.ts:139 | `parseFloat` is NaN exactly when, after white space and one sign, the text starts with neither a digit, a point and a digit, nor `Infinity` |
| NumParse.ParseFloatOfNat | services/aiService.ts:139 | the decimal text of a natural number parses back to that number |
| NumParse.ParseFloatOfCents | services/aiService.ts:123 | an amount written as digits, a point and two digits parses as that many hundredths |
| NumParse.SkipSpaceSpec | services/aiService.ts:123 | `parseFloat` skips exactly the leading white space |
| NumParse.ParseFloatIgnoresComma | services/aiService.ts:98 | a comma ends a number, so `parseFloat(String(array))` reads only the first element |
| NumParse.KeepNumericOnlyNumeric | services/aiService.ts:123 | `replace(/[^0-9.-]+/g, "")` leaves only digits, points and minus signs |
| NumParse.KeepNumericOfNumeric | services/aiService.ts:123 | a text made only of digits, points and minus signs passes the strip unchanged |
| NumParse.KeepNumericAppend | services/aiService.ts:128 | the strip works character by character |
| CurrencyExamples.CurrencyExample | services/aiService.ts:122-123 | `"$1,234.56"` becomes 1234.56 |
| CurrencyExamples.NegativeCurrencyExample | services/aiService.ts:123 | a leading minus survives the strip: `"-45.00"` becomes -45 |
| CurrencyExamples.UnparseableCurrencyIsNaN | services/aiService.ts:123 | the total `"unknown"` becomes NaN, not 0 |
| NumParse.NoDigitCurrencyIsNaN | services/aiService.ts:123 | every total with no digit at all becomes NaN, not 0: the points and minus signs the strip keeps cannot start a number |
| NumParse.LooseNumber | services/aiService.ts:98 | `parseFloat(String(v)) \|\| 0` is the parsed value when that is a non-zero number, and 0 for NaN or zero; never NaN |
| MonthLabel.MatchLabel | services/aiService.ts:90 | a match yields a token of at least three ASCII letters and a four-digit year, and is the scan's result at some position where every earlier position fails; no match means the pattern matches at no position |
| MonthLabel.MatchAt | services/aiService.ts:90 | a match at a position takes the token from the label there, as the longest run of letters, and the year from the four characters where the separator ends |
| MonthLabel.MatchAtIsLayout | services/aiService.ts:90 | the scan at a position yields `(m, y)` iff the label there is laid out as `m` (three or more letters), an optional point, spaces, an optional comma, spaces and the four digits `y` |
| MonthLabel.MatchLabelIsLeftmost | services/aiService.ts:90-93 | `match[1]` and `match[2]` are `m` and `y` iff the pattern is laid out with these captures at some position and matches at no earlier position |
| MonthLabel.MatchLabelNone | services/aiService.ts:90-91 | the label is skipped iff the pattern is laid out at no position |
| MonthLabel.MatchesWellFormedLabel | services/aiService.ts:90 | letters (three or more), an optional point, spaces, an optional comma, spaces and four digits are matched as (letters, digits) whatever follows |
| MonthLabel.OctoberExample | services/aiService.ts:90-93 | `"Oct, 2016"` yields month `Oct` and year `2016` |
| Charts.RowOf | services/aiService.ts:85-98 | a flat point yields a row iff its month is a non-empty string matching the label pattern and its `value` is defined; the row holds the matched month token and year and the loosely parsed value |
| Charts.RowsAreFilterMap | services/aiService.ts:86-100 | the rows of a flat chart are `RowOf` of each point, the points that give none skipped, in data order |
| Charts.RowsAppend | services/aiService.ts:86-100 | the rows of `a + b` are the rows of `a` followed by the rows of `b` |
| Charts.RowsOne | services/aiService.ts:86-100 | one point gives its own row when `RowOf` yields one, and no row otherwise |
| Charts.AddRow | services/aiService.ts:95-98 | a row of a new month appends a group with one entry; a row of a known month appends one entry to that group only |
| Charts.GroupRowsSpec | services/aiService.ts:83-101 | the groups are the distinct months in first-seen order, each with every row of that month in row order (no de-duplication of years) |
| Charts.FirstSeen | services/aiService.ts:101 | the distinct months: the same set as the input, each once |
| Charts.FirstSeenOrder | services/aiService.ts:95-101 | the months in first-insertion order: a month listed before another occurs in the data before every occurrence of the later one |
| Charts.Regroup | services/aiService.ts:83-101 | the regrouped data is all in nested shape, and is the JSON of the month map built from the chart's flat rows |
| Charts.RegroupSpec | services/aiService.ts:83-101 | the regrouped data has one point per distinct month token, in first-seen order, whose usage lists every row of that month in data order |
| Charts.RepairChart | services/aiService.ts:77-101 | a kept chart comes out in nested shape with every other field as it was; a non-array `data` becomes `[]`; a chart already nested (including one with empty data) is returned unchanged; any other chart gets its points regrouped by month as its `data` |
| Charts.RepairChartIdempotent | services/aiService.ts:77-101 | repairing a repaired chart changes nothing |
| Charts.RepairCharts | services/aiService.ts:75-102 | only kept charts remain, each repaired |
| Charts.RepairChartsAppend | services/aiService.ts:75-102 | filter then map: the charts of `a + b` give the repaired kept charts of `a` followed by those of `b`, in order |
| Charts.RepairChartsOne | services/aiService.ts:75-102 | one chart is repaired when the filter keeps it and dropped otherwise |
| Charts.RepairChartsIdempotent | services/aiService.ts:75-102 | filtering and repairing the charts twice is the same as once |
| Sanitize.SourceOf | services/aiService.ts:28 | the fields are read from an object-valued `properties` when there is one, and from the value itself otherwise |
| Sanitize.OrDefault | services/aiService.ts:106-109 | `x ?? d` keeps a present non-null value, sets a missing or null one to `d`, and changes no other field |
| Sanitize.KeepLineItems | services/aiService.ts:111-112 | an item is among the kept ones iff it is a non-null object with a truthy description |
| Sanitize.KeepLineItemsAppend | services/aiService.ts:111-112 | the filter keeps order and multiplicity: the items of `a + b` give the kept items of `a` followed by those of `b` |
| Sanitize.KeepLineItemsOne | services/aiService.ts:111-112 | one item is kept iff it is a line item |
| Sanitize.FillDefaults | services/aiService.ts:106-109 | each required scalar keeps a present non-null value and otherwise takes its default (`N/A`, 0, 0.5, the fixed sentence); every other field is unchanged |
| Sanitize.FillLists | services/aiService.ts:111-115 | the line items become the filtered input items; an array of charts or of questions is kept as it is; a missing or non-array list becomes `[]`; other fields are unchanged |
| Sanitize.Sanitize | services/aiService.ts:27-118 | the result is empty iff the source is not an object; every field is a schema property; for an object source every required field is present with its list shapes |
| Sanitize.SanitizedLists | services/aiService.ts:74-115 | the result's line items are the filtered resolved items, its charts the kept and repaired resolved charts, its questions the resolved questions; each is `[]` when the resolved value is missing or not an array |
| Sanitize.DefaultsOnlyWhenNullish | services/aiService.ts:106-109 | a required scalar keeps the resolved value unless that is null or missing, and only then takes its default (`N/A`, 0, 0.5, the fixed sentence) |
| Sanitize.OptionalFieldsPassThrough | services/aiService.ts:60-71 | a field that is not defaulted or filtered is present iff resolution found it, with the value found |
| Sanitize.DefaultsOfEmpty | services/aiService.ts:106-115 | an object with no usable field gives exactly the defaults |
| Sanitize.ArraySourceGivesDefaults | services/aiService.ts:30-32 | an array passes the object test, has no named fields, and so gives exactly the defaults |
| Sanitize.PrimitiveSourceGivesNothing | services/aiService.ts:30-32 | a non-object source returns `{}` and skips all defaulting |
| Sanitize.EnvelopeHidesOuterFields | services/aiService.ts:28 | with an object-valued `properties`, the fields beside it have no effect on the result |
| PostProcess.CoerceField | services/aiService.ts:127-128 | a field holding text is replaced by the parse of that text; anything else is left alone; other fields are untouched |
| PostProcess.CoercePoint | services/aiService.ts:136-142 | a point with a truthy `usage` gets its entries coerced one by one, a text value becoming `parseFloat` of that text; no usage value is text afterwards; the point keeps its other fields; a point with no text value is unchanged |
| PostProcess.CoerceChart | services/aiService.ts:134-144 | a chart with truthy `data` gets every point coerced in place and order; the chart's other fields are untouched; an already numeric chart is unchanged |
| PostProcess.CoerceTotal | services/aiService.ts:122-124 | a text total becomes the parse of its stripped text; nothing else changes |
| PostProcess.CoerceLineItems | services/aiService.ts:125-131 | a truthy `lineItems` becomes its items with each text amount replaced by the currency parse of that text; no amount is text afterwards; no other field changes |
| PostProcess.CoerceUsageCharts | services/aiService.ts:132-146 | a truthy `usageCharts` becomes its charts coerced one by one; no usage value is text afterwards; no other field changes |
| PostProcess.PostProcess | services/aiService.ts:121-148 | same keys; only the total, the line items and the charts change; a text total becomes ParseCurrency of its text (NaN is kept); truthy lists are coerced item by item and chart by chart; nothing numeric is text afterwards; an input already coerced is returned unchanged |
| PostProcess.PostProcessIdempotent | services/aiService.ts:121-148 | running the pass twice is the same as once |
| PostProcess.PostProcessFixedPoints | services/aiService.ts:121-148 | the pass leaves a record unchanged iff none of its numeric fields is text |
| PostProcess.ListsAfterPass | services/aiService.ts:125-146 | the line items are coerced item by item and the charts chart by chart |
| PostProcess.SanitizedSafety | services/aiService.ts:132-143 | on a sanitised record the pass runs without a TypeError iff no usage entry of a nested chart is null |
| PostProcess.PostProcessKeepsShape | services/aiService.ts:121-148 | the pass keeps every required field and list shape the sanitiser established |
| PostProcess.Normalize | services/aiService.ts:27-148 | both passes: empty iff the source is not an object; only schema properties; the required shape for an object source; fully coerced |
| PostProcess.NormalizedLists | services/aiService.ts:27-148 | the normalised lists in terms of the resolved source fields: the filtered line items with amounts coerced, the kept and repaired charts with usage values coerced, and the questions as resolved |
| PostProcess.NormalizeSafeWhen | services/aiService.ts:80-143 | for an object source the two passes run without a TypeError iff no usage entry of the sanitised charts is null |
| PostProcess.NonObjectNormalizesEmpty | services/aiService.ts:30-32 | a non-object source normalises to `{}` |
| PostProcess.NormalizeSettled | services/aiService.ts:121-148 | the pass has nothing left to do on a normalised record |
| Types.DecodeAll | types.ts:47-51 | a JSON list decodes iff each element does, element by element |
| Types.UsageRoundTrip | types.ts:15-18 | a year/value pair (the year as text) reads back from its JSON form |
| Types.PointRoundTrip | types.ts:20-23 | a month with its list of year/value pairs reads back from its JSON form |
| Types.ChartRoundTrip | types.ts:25-29 | a chart (title, unit, ordered points) reads back from its JSON form |
| Types.ItemRoundTrip | types.ts:10-13 | a line item reads back from its JSON form |
| Types.QuestionRoundTrip | types.ts:31-34 | a question (free-text field path and question) reads back from its JSON form |
| Types.ReadText | types.ts:39-44 | an optional text field is absent when missing, present when text, and a mistyped record otherwise |
| Types.BillRoundTrip | types.ts:36-53 | a record reads back from its JSON form: required fields always stored, optional ones exactly when present |
| History.BillId | App.tsx:103 | the id is `bill-` followed by the decimal clock reading |
| History.BillIdInjective | App.tsx:103 | different clock readings give different ids |
| History.AssembleJson | App.tsx:101-106 | the new record is the parsed fields with `id`, `analyzedAt` and `rawResponse` set last, overriding parsed fields of those names; no other field changes |
| History.AssembleKeepsNormalized | App.tsx:101-106 | every field of the normalised reply survives into the new record |
| History.AssembleAgrees | App.tsx:101-106 | the assembled JSON reads back as the parsed record with the three stamped fields replaced |
| History.Push | App.tsx:108 | the new record first, then the first (at most 19) previous records in order |
| History.Analyze | App.tsx:87-118 | no image: only the error is set; success: the new record is current, heads the history, the image and error are cleared; failure: only the error is set, with the thrown message or the fixed text; loading ends in both cases |
| History.AnalyzeBounded | App.tsx:108 | the history never grows beyond 20 records |
| History.EditsBounded | App.tsx:120-148 | select, delete, update and reset keep the history within 20 records |
| History.SelectNewest | App.tsx:108-127 | selecting the record just analysed changes nothing |
| History.FindById | App.tsx:121 | the first record with the id, or none iff no record has it |
| History.Select | App.tsx:120-127 | an unknown id leaves the state unchanged; a known one makes a history record with that id current and clears image and error |
| History.SelectFirst | App.tsx:121-124 | selection takes the first record with the id |
| History.RemoveId | App.tsx:130 | the remaining records are exactly those with another id |
| History.RemoveIdCount | App.tsx:130 | the records removed are exactly those with the id |
| History.RemoveIdAppend | App.tsx:130 | removal works record by record and keeps order |
| History.Delete | App.tsx:129-135 | records with the id are removed; the current record is cleared iff it has the id; nothing else changes |
| History.DeleteIdempotent | App.tsx:129-135 | deleting twice is deleting once; a deleted id can no longer be selected |
| History.ReplaceId | App.tsx:146 | every record with the edited id is replaced and the others stay, position by position |
| History.Update | App.tsx:143-148 | the edited record becomes current; the history keeps its length, every record with the edited id becomes the edited record and every other record stays |
| History.UpdateIdempotent | App.tsx:143-148 | applying the same edit twice is applying it once |
| History.SelectAfterUpdate | App.tsx:120-148 | after an edit, selecting its id brings back the edited record |
| History.DeleteAfterUpdate | App.tsx:129-148 | deleting an edited id leaves the same history as deleting it before the edit |
| History.Reset | App.tsx:137-141 | image, current record and error are cleared; history and loading flag are kept |
| History.ResetIdempotent | App.tsx:137-141 | resetting twice is resetting once |
| UsageTable.AllYears | components/EditableUsageTable.tsx:18 | a year is listed iff some point of the chart has an entry for it |
| UsageTable.Insert | components/EditableUsageTable.tsx:18 | inserting into a sorted list without duplicates keeps it so and adds exactly the one year |
| UsageTable.Years | components/EditableUsageTable.tsx:18 | the column years are strictly increasing in character order and are exactly the years of the chart |
| UsageTable.SortedUnique | components/EditableUsageTable.tsx:18 | only one strictly sorted list has a given set of years, so the columns are determined by the chart |
| UsageTable.FindMonth | components/EditableUsageTable.tsx:22 | the first point with the month, or none iff no point has it |
| UsageTable.FindYear | components/EditableUsageTable.tsx:24 | the first entry with the year, or none iff no entry has it |
| UsageTable.CellValue | components/EditableUsageTable.tsx:25-29 | the typed text's parse, or 0 when it does not parse; never NaN |
| UsageTable.SetYear | components/EditableUsageTable.tsx:24-30 | afterwards the year reads the new value and every other year reads as before; only the first entry for the year changes, every other entry stays in place, and a missing year is added as one new entry after all the others |
| UsageTable.SetYearAppends | components/EditableUsageTable.tsx:28-29 | a year the month lacks is appended at the end: the entries become the old ones followed by `{year, value}` |
| UsageTable.SetYearInPlace | components/EditableUsageTable.tsx:24-27 | a year the month has gets the value in its first entry, and every other entry, including later entries for the same year, is unchanged |
| UsageTable.EditCell | components/EditableUsageTable.tsx:20-34 | no update iff no point has the month; otherwise title, unit and every point's month are kept, every point other than the first with the month is unchanged, and that point's usage is `SetYear` of its old usage with the parsed value |
| UsageTable.EditCellReads | components/EditableUsageTable.tsx:20-34 | after an edit the cell shows the typed value and every other cell shows what it showed |
| UsageTable.EditCellYears | components/EditableUsageTable.tsx:18-30 | after an edit the columns are the old years plus the edited one |
| UsageTable.Search | components/EditableUsageTable.tsx:45-47 | the unanchored test: some position starts `usageCharts.`, a digit run, then the cell's own tail |
| UsageTable.SearchIsRegex | components/EditableUsageTable.tsx:45 | the test agrees with the regular expression: a position, a non-empty digit run and the tail laid out in the text |
| UsageTable.FirstFlag | components/EditableUsageTable.tsx:47 | the first question whose field matches, or none iff no field matches |
| UsageTable.Flag | components/EditableUsageTable.tsx:36-48 | no flag without questions or without the year in that month; otherwise a flag is found iff some question matches the cell's pattern, and it is the first such question |
| UsageTable.PathFlags | components/EditableUsageTable.tsx:44-47 | the path of cell (month, entry) in any chart is matched by a cell's pattern iff it is that cell |
| UsageTable.FlagIgnoresChart | components/EditableUsageTable.tsx:45 | a question naming the cell under any chart index flags it |
| Csv.EscapeCell | utils/csv.ts:16-22 | a missing cell is empty; a cell without quote, comma, CR or LF is verbatim; any other is wrapped in quotes |
| Csv.DoubleQuotesAppend | utils/csv.ts:19 | doubling quotes works character by character: it distributes over concatenation |
| Csv.DoubleQuotesChar | utils/csv.ts:19 | a quote becomes two quotes and any other character stays as it is |
| Csv.EscapeRoundTrip | utils/csv.ts:18-21 | stripping the quotes and halving doubled quotes recovers the cell |
| Csv.ReadFieldOf | utils/csv.ts:16-22 | an escaped cell reads back as the cell when followed by a comma, CRLF or the end |
| Csv.ReadRecordOf | utils/csv.ts:28-30 | a joined line reads back as its cells |
| Csv.ReadRender | utils/csv.ts:28-31 | CRLF-terminated lines of escaped, comma-joined cells read back as exactly the rows |
| Csv.ItemRows | utils/csv.ts:26 | one row per line item: its description and its printed amount |
| Csv.LineItemsCsvReads | utils/csv.ts:24-31 | the line-item file reads as the header `Description,Amount` and one record per item |
| Csv.LineItemsFilename | utils/csv.ts:33 | the file name is `line-items-`, the account number, a dash, the statement date (or `undefined` when it is missing) and `.csv` |
| Csv.UsageHeader | utils/csv.ts:38 | `Month`, then `<unit> <year>` for each column year in order |
| Csv.UsageRow | utils/csv.ts:40-46 | the month, then one cell per column year |
| Csv.UsageCsvReads | utils/csv.ts:36-52 | the usage file reads as the header and one record per point: the month, then per sorted year the printed first value for it or an empty cell |
| Csv.CollapseRun | utils/csv.ts:54 | each run of white space in the title becomes one `_` |
| Csv.CollapseNoSpace | utils/csv.ts:54 | a title without white space is kept as it is |
| Csv.UsageFilename | utils/csv.ts:54 | the file name is `usage-data-`, the title with its white space collapsed, and `.csv`, and it contains no white space |
| Csv.UsageFilenamePlain | utils/csv.ts:54 | a title without white space appears in the file name unchanged |
| Csv.UsageFilenameRun | utils/csv.ts:54 | a run of white space after the title's first word appears in the file name as one `_` |
| Display.TableUpdate | components/BillDataDisplay.tsx:42-46 | the record with the edited chart at the index and every other chart and field unchanged |
| Display.TableUpdateLaws | components/BillDataDisplay.tsx:42-46 | writing back the same chart changes nothing; of two writes to one chart the later wins |
| Display.DeepCopyIsIdentity | components/BillDataDisplay.tsx:43 | the JSON copy of a record reads back as the record |
| Display.EditChartCell | components/BillDataDisplay.tsx:42-46 | a table edit reaches the record iff the month exists, keeping the id and the number of charts |
| Display.EditChartCellReads | components/BillDataDisplay.tsx:42-46 | after a table edit the edited cell shows the typed value; every other cell and chart is unchanged |
| Display.EditReachesHistory | components/BillDataDisplay.tsx:45 | the edited record becomes current and replaces every history record with its id |
| Display.InfoFieldText | components/BillDataDisplay.tsx:15 | a present, non-empty value is shown as it is; a missing or empty one as `N/A`; never blank |
| Display.InfoFieldAmbiguous | components/BillDataDisplay.tsx:15 | a value that is literally `N/A` looks the same as a missing one |
| Display.ServicePeriodShape | components/BillDataDisplay.tsx:159 | with both dates present the label is start, ` - `, end; otherwise `N/A` |
| Display.ServicePeriodShown | components/BillDataDisplay.tsx:159 | the label passes through the info field unchanged |
| Text.NatToStringInjective | App.tsx:103 | decimal text of naturals is injective |
| Text.LexLessTransitive | components/EditableUsageTable.tsx:18 | the model's character order (`LexLess`), which stands for `sort()`'s order, is transitive |
| Text.LexLessTotal | components/EditableUsageTable.tsx:18 | any two different texts are ordered one way or the other |

## Behaviour worth knowing

- **Currency strip.** It keeps every digit, every `.` and every `-`, wherever they
  stand (services/aiService.ts:123, 128), so `"1-2"` keeps both digits and the
  minus between them.
- **Unparseable text.** Text that does not parse becomes NaN and stays NaN
  (services/aiService.ts:123, 128, 139). Within the normaliser, only the
  flattened repair turns NaN into 0 (services/aiService.ts:98). Outside it, the
  usage table stores 0 for a typed entry that does not parse
  (components/EditableUsageTable.tsx:27).
- **No de-duplication in the repair.** Every matching row adds one entry to its
  month, even when the month already has that year (services/aiService.ts:98).
  Two rows for `Oct 2017` give two entries.
- **Question matcher.** The chart index is a wildcard and the test is
  unanchored (components/EditableUsageTable.tsx:45). A question about any chart
  flags the same cell of every chart.
- **Lower-casing.** `toLowerCase` also maps the Kelvin sign (U+212A) to `k`. A
  raw key spelled with it therefore matches a candidate containing `k`.
  `Schema.LowerChar` includes that case. Other non-ASCII mappings cannot make a
  key equal to the ASCII candidates, so they are left as identity.

## Left out

- **Transport.** The provider calls, the Ollama URL check and `analyzeBill`
  are network I/O through a third-party SDK. The reply and its text are inputs
  (`History.Outcome`).
- **Clock.** `Date.now()` and `toISOString()` are opaque inputs (`now`, `at`).
- **Browser side effects.** Logging, `localStorage`, theme, `downloadCSV`,
  Formspree, `window.print`, JSX and the UI-only components are browser I/O or
  rendering.
- **ConfidenceMeter.** Its colour bands compare a floating-point `score * 100`
  with thresholds.
- **Number printing.** `String(number)` inside the CSV is a parameter
  (`Csv.Printer`), because JavaScript's shortest round-trip printing of doubles
  is not modelled.
- **Result key order.** The order of keys in the normaliser's result object is
  not modelled. The result is a map. JavaScript's ordering of integer-like keys
  is not modelled either.
- **Mutation.** `postProcessData` mutates its argument, and the sanitiser's
  result shares objects with the input. Both are modelled by building new
  values; no aliasing between them is modelled.
- **Sort order.** `sort()` compares UTF-16 code units; the model compares
  characters (`Text.LexLess`). The two agree on the basic multilingual plane.
- NumParse.ParseFloat: decimal literals are parsed to exact reals. Rounding to
  the nearest double, and overflow to Infinity for long literals, are not
  modelled.
- Sanitize.Sanitize: it requires `SanitizeSafe`, which states the conditions
  under which the source returns rather than throws:
  - the reply is not null;
  - no element of a flattened chart's data is null, since reading `.month` on
    null throws (services/aiService.ts:80, 86);
  - no month token is the name of a built-in object method such as
    `constructor` (`Sanitize.PrototypeNames`), which the plain-object `monthMap`
    would find already "present".

  The thrown errors themselves are not modelled.
- PostProcess.PostProcess: it requires `PostProcessSafe`, meaning no null entry
  where the pass reads a field, and truthy lists that are arrays. `Normalize`
  requires the same of the sanitised record (`NormalizeSafe`). A TypeError is
  not modelled.
- UsageTable.EditCell: the deep copy goes through JSON text. That turns NaN and
  Infinity values elsewhere in the chart into `null`. The model keeps them.
- Display.TableUpdate: the same JSON deep copy turns non-finite numbers and
  missing optional fields elsewhere in the record into `null`/absent. The model
  keeps the record as it is. `Display.DeepCopyIsIdentity` states the copy as an
  identity on records.
- Csv.EscapeCell: `String(cell ?? '')` of a number is the `Printer`'s text, as
  above.
- Schema.LowerChar: only the characters whose lower case is an ASCII letter
  are lower-cased (A-Z and the Kelvin sign). Other non-ASCII letters are left
  as they are, whereas `toLowerCase` lower-cases them. None of them
  lower-cases into text made only of ASCII characters, so matching against
  the ASCII alias table is unaffected.
- Schema.Norm: the model's normal form is never longer than the key.
  `toLowerCase` can lengthen a key: `'İ'` becomes `i` followed by a combining
  dot. The result still holds a non-ASCII character, so it cannot equal an
  ASCII alias and matching is unaffected.
- UsageTable.Years: ordering is by character, not by UTF-16 code unit, as above.

