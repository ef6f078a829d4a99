/** The editable usage table: its year columns, the cell edit, and the
    matcher that decides which verification question flags a cell. */
module UsageTable {
  import opened Wrappers
  import opened Json
  import opened Text
  import opened Types
  import NumParse

  // ---- the year columns ----

  /** Some entry of `us` is for `year`. */
  predicate HasYear(us: seq<UsageByYear>, year: string) {
    exists k :: 0 <= k < |us| && us[k].year == year
  }

  /** Some point of `data` has an entry for `year`. */
  predicate InData(data: seq<UsageDataPoint>, year: string) {
    exists i :: 0 <= i < |data| && HasYear(data[i].usage, year)
  }

  /** Every year of every point, in order, repeats included. */
  function AllYears(data: seq<UsageDataPoint>): (ys: seq<string>)
    ensures forall y :: y in ys <==> InData(data, y)
  {
    if |data| == 0 then []
    else
      var first := seq(|data[0].usage|, j requires 0 <= j < |data[0].usage| => data[0].usage[j].year);
      var rest := AllYears(data[1..]);
      forall y ensures y in first + rest <==> InData(data, y) {
        if y in first {
          var j :| 0 <= j < |first| && first[j] == y;
          assert data[0].usage[j].year == y;
        }
        if HasYear(data[0].usage, y) {
          var j :| 0 <= j < |data[0].usage| && data[0].usage[j].year == y;
          assert first[j] == y;
        }
        if y in rest {
          var i :| 0 <= i < |data[1..]| && HasYear(data[1..][i].usage, y);
          assert data[i + 1] == data[1..][i];
        }
        if InData(data, y) {
          var i :| 0 <= i < |data| && HasYear(data[i].usage, y);
          if i > 0 {
            assert data[1..][i - 1] == data[i];
          }
        }
      }
      first + rest
  }

  predicate StrictlySorted(s: seq<string>) {
    forall i, j :: 0 <= i < j < |s| ==> LexLess(s[i], s[j])
  }

  /** A strictly sorted sequence has no repeats. */
  lemma SortedDistinct(s: seq<string>, i: nat, j: nat)
    requires StrictlySorted(s)
    requires i < j < |s|
    ensures s[i] != s[j]
  {
    LexLessIrreflexive(s[i]);
  }

  lemma SortedCons(a: string, s: seq<string>)
    requires StrictlySorted(s)
    requires forall y :: y in s ==> LexLess(a, y)
    ensures StrictlySorted([a] + s)
  {
    var t := [a] + s;
    forall i, j | 0 <= i < j < |t| ensures LexLess(t[i], t[j]) {
      if i == 0 {
        assert t[j] == s[j - 1];
        assert t[j] in s;
      } else {
        assert t[i] == s[i - 1] && t[j] == s[j - 1];
      }
    }
  }

  lemma SortedHead(s: seq<string>)
    requires StrictlySorted(s) && |s| > 0
    ensures forall y :: y in s[1..] ==> LexLess(s[0], y)
  {
    forall y | y in s[1..] ensures LexLess(s[0], y) {
      var k :| 0 <= k < |s[1..]| && s[1..][k] == y;
      assert s[k + 1] == y;
    }
  }

  /** `x` put into its place in a strictly sorted sequence, unless already there. */
  function Insert(x: string, s: seq<string>): (r: seq<string>)
    requires StrictlySorted(s)
    ensures StrictlySorted(r)
    ensures forall y :: y in r <==> y == x || y in s
    decreases |s|
  {
    if |s| == 0 then [x]
    else if x == s[0] then s
    else if LexLess(x, s[0]) then
      SortedHead(s);
      forall y | y in s ensures LexLess(x, y) {
        if y != s[0] { assert y in s[1..]; LexLessTransitive(x, s[0], y); }
      }
      SortedCons(x, s);
      [x] + s
    else
      LexLessTotal(x, s[0]);
      SortedHead(s);
      var r := Insert(x, s[1..]);
      SortedCons(s[0], r);
      assert s == [s[0]] + s[1..];
      [s[0]] + r
  }

  function SortYears(ys: seq<string>): (r: seq<string>)
    ensures StrictlySorted(r)
    ensures forall y :: y in r <==> y in ys
  {
    if |ys| == 0 then []
    else
      assert ys == [ys[0]] + ys[1..];
      Insert(ys[0], SortYears(ys[1..]))
  }

  /** `Array.from(new Set(years)).sort()`: the column years. */
  function Years(c: UsageChartData): (r: seq<string>)
    ensures StrictlySorted(r)
    ensures forall y :: y in r <==> InData(c.data, y)
  {
    SortYears(AllYears(c.data))
  }

  /** Two strictly sorted sequences with the same members are equal, so
      the columns are determined by the set of years alone. */
  lemma {:induction false} SortedUnique(a: seq<string>, b: seq<string>)
    requires StrictlySorted(a) && StrictlySorted(b)
    requires forall y :: y in a <==> y in b
    ensures a == b
    decreases |a|
  {
    assert |a| > 0 ==> a[0] in b;
    assert |b| > 0 ==> b[0] in a;
    if |a| > 0 && |b| > 0 {
      SortedHead(a);
      SortedHead(b);
      assert a[0] in b && b[0] in a;
      if a[0] != b[0] {
        assert a[0] in b[1..];
        assert b[0] in a[1..];
        LexLessAsymmetric(b[0], a[0]);
        assert false;
      }
      assert a == [a[0]] + a[1..] && b == [b[0]] + b[1..];
      forall y ensures y in a[1..] <==> y in b[1..] {
        if y in a[1..] {
          assert LexLess(a[0], y);
          LexLessIrreflexive(y);
          assert y in b;
        }
        if y in b[1..] {
          assert LexLess(b[0], y);
          LexLessIrreflexive(y);
          assert y in a;
        }
      }
      assert StrictlySorted(a[1..]) by {
        forall i, j | 0 <= i < j < |a[1..]| ensures LexLess(a[1..][i], a[1..][j]) {
          assert a[1..][i] == a[i + 1] && a[1..][j] == a[j + 1];
        }
      }
      assert StrictlySorted(b[1..]) by {
        forall i, j | 0 <= i < j < |b[1..]| ensures LexLess(b[1..][i], b[1..][j]) {
          assert b[1..][i] == b[i + 1] && b[1..][j] == b[j + 1];
        }
      }
      SortedUnique(a[1..], b[1..]);
    }
  }

  // ---- editing a cell ----

  /** The first point labelled `month`. */
  function FindMonth(data: seq<UsageDataPoint>, month: string): (r: Option<nat>)
    ensures r.Some? ==> r.value < |data| && data[r.value].month == month && forall k :: 0 <= k < r.value ==> data[k].month != month
    ensures r.None? <==> forall k :: 0 <= k < |data| ==> data[k].month != month
  {
    if |data| == 0 then None
    else if data[0].month == month then Some(0)
    else
      match FindMonth(data[1..], month)
      case Some(i) => Some(i + 1)
      case None => None
  }

  /** The first entry for `year`. */
  function FindYear(us: seq<UsageByYear>, year: string): (r: Option<nat>)
    ensures r.Some? ==> r.value < |us| && us[r.value].year == year && forall k :: 0 <= k < r.value ==> us[k].year != year
    ensures r.None? <==> forall k :: 0 <= k < |us| ==> us[k].year != year
  {
    if |us| == 0 then None
    else if us[0].year == year then Some(0)
    else
      match FindYear(us[1..], year)
      case Some(j) => Some(j + 1)
      case None => None
  }

  /** What a typed entry stores: `parseFloat(text)`, or 0 when that is NaN. */
  function CellValue(text: string): (v: Num)
    ensures !v.NaN?
    ensures NumParse.ParseFloat(text).NaN? ==> v == Finite(0.0)
    ensures !NumParse.ParseFloat(text).NaN? ==> v == NumParse.ParseFloat(text)
  {
    var p := NumParse.ParseFloat(text);
    if p.NaN? then Finite(0.0) else p
  }

  /** The value of the first entry for `year`, if any. */
  function ValueFor(us: seq<UsageByYear>, year: string): Option<Num> {
    match FindYear(us, year)
    case Some(j) => Some(us[j].value)
    case None => None
  }

  /** The first entry for `year` gets `v`, or `{year, v}` is appended. */
  function SetYear(us: seq<UsageByYear>, year: string, v: Num): (r: seq<UsageByYear>)
    ensures ValueFor(r, year) == Some(v)
    ensures forall y :: y != year ==> ValueFor(r, y) == ValueFor(us, y)
    ensures forall y :: HasYear(r, y) <==> y == year || HasYear(us, y)
    ensures |r| == |us| + (if HasYear(us, year) then 0 else 1)
    ensures forall k :: 0 <= k < |us| && Some(k) != FindYear(us, year) ==> r[k] == us[k]
    ensures FindYear(us, year).Some? ==> r[FindYear(us, year).value] == UsageByYear(year, v)
    ensures !HasYear(us, year) ==> r[|us|] == UsageByYear(year, v)
  {
    match FindYear(us, year)
    case Some(j) =>
      var r := us[j := us[j].(value := v)];
      assert forall k :: 0 <= k < |us| ==> r[k].year == us[k].year;
      SameYearsSameLookup(us, r, year);
      forall y | y != year ensures ValueFor(r, y) == ValueFor(us, y) {
        SameYearsSameLookup(us, r, y);
        var o := FindYear(us, y);
        if o.Some? { assert o.value != j; }
      }
      r
    case None =>
      var r := us + [UsageByYear(year, v)];
      forall y | y != year ensures ValueFor(r, y) == ValueFor(us, y) {
        AppendOtherYear(us, UsageByYear(year, v), y);
      }
      AppendNewYear(us, UsageByYear(year, v));
      forall y ensures HasYear(r, y) <==> y == year || HasYear(us, y) {
        if HasYear(us, y) {
          var k :| 0 <= k < |us| && us[k].year == y;
          assert r[k] == us[k];
        }
        if HasYear(r, y) && y != year {
          var k :| 0 <= k < |r| && r[k].year == y;
          assert k < |us| && us[k] == r[k];
        }
        if y == year {
          assert r[|us|].year == y;
        }
      }
      r
  }

  /** Entries with the same years, one by one, find a year at the same place. */
  lemma SameYearsSameLookup(a: seq<UsageByYear>, b: seq<UsageByYear>, y: string)
    requires |a| == |b|
    requires forall k :: 0 <= k < |a| ==> a[k].year == b[k].year
    ensures FindYear(a, y) == FindYear(b, y)
  {
    var fa := FindYear(a, y);
    var fb := FindYear(b, y);
  }

  lemma AppendOtherYear(us: seq<UsageByYear>, e: UsageByYear, y: string)
    requires e.year != y
    ensures FindYear(us + [e], y) == FindYear(us, y)
  {
    var r := us + [e];
    var fa := FindYear(us, y);
    var fb := FindYear(r, y);
    assert forall k :: 0 <= k < |us| ==> r[k] == us[k];
  }

  lemma AppendNewYear(us: seq<UsageByYear>, e: UsageByYear)
    requires forall k :: 0 <= k < |us| ==> us[k].year != e.year
    ensures FindYear(us + [e], e.year) == Some(|us|)
  {
    assert (us + [e])[|us|] == e;
  }

  /** A year the entries lack is appended after all of them. */
  lemma SetYearAppends(us: seq<UsageByYear>, year: string, v: Num)
    requires !HasYear(us, year)
    ensures SetYear(us, year, v) == us + [UsageByYear(year, v)]
  {
    var r := SetYear(us, year, v);
    assert FindYear(us, year).None?;
    assert forall k :: 0 <= k < |us| ==> r[k] == us[k];
  }

  /** A year the entries have changes its first entry, and only that one. */
  lemma SetYearInPlace(us: seq<UsageByYear>, year: string, v: Num)
    requires HasYear(us, year)
    ensures var j := FindYear(us, year).value;
      SetYear(us, year, v) == us[j := UsageByYear(year, v)]
  {
    var r := SetYear(us, year, v);
    var j := FindYear(us, year).value;
    assert forall k :: 0 <= k < |us| && k != j ==> r[k] == us[k];
  }

  /** `handleValueChange(month, year, text)`: the chart after the edit, or
      `None` when no point is labelled `month` (no update is emitted). */
  function EditCell(c: UsageChartData, month: string, year: string, text: string): (r: Option<UsageChartData>)
    ensures r.None? <==> forall k :: 0 <= k < |c.data| ==> c.data[k].month != month
    ensures r.Some? ==> r.value.title == c.title && r.value.unit == c.unit && |r.value.data| == |c.data|
    ensures r.Some? ==> forall k :: 0 <= k < |c.data| ==> r.value.data[k].month == c.data[k].month
    ensures r.Some? ==> forall k :: 0 <= k < |c.data| && Some(k) != FindMonth(c.data, month) ==> r.value.data[k] == c.data[k]
    ensures r.Some? ==> var i := FindMonth(c.data, month).value;
      r.value.data[i].usage == SetYear(c.data[i].usage, year, CellValue(text))
  {
    match FindMonth(c.data, month)
    case None => None
    case Some(i) =>
      var p := c.data[i];
      Some(c.(data := c.data[i := p.(usage := SetYear(p.usage, year, CellValue(text)))]))
  }

  /** What the row at `k` shows in the column `year`. */
  function CellAt(c: UsageChartData, k: nat, year: string): Option<Num>
    requires k < |c.data|
  {
    ValueFor(c.data[k].usage, year)
  }

  /** After an edit, the first row labelled `month` shows the entered value
      in column `year`, and every other cell shows what it showed before. */
  lemma EditCellReads(c: UsageChartData, month: string, year: string, text: string)
    requires exists k :: 0 <= k < |c.data| && c.data[k].month == month
    ensures var r := EditCell(c, month, year, text);
            var i := FindMonth(c.data, month).value;
            && r.Some?
            && CellAt(r.value, i, year) == Some(CellValue(text))
            && forall k, y :: 0 <= k < |c.data| && (k != i || y != year) ==> CellAt(r.value, k, y) == CellAt(c, k, y)
  {
  }

  /** The columns after an edit are the columns before plus the edited year. */
  lemma EditCellYears(c: UsageChartData, month: string, year: string, text: string)
    requires exists k :: 0 <= k < |c.data| && c.data[k].month == month
    ensures forall y :: y in Years(EditCell(c, month, year, text).value) <==> y in Years(c) || y == year
  {
    var r := EditCell(c, month, year, text).value;
    var i := FindMonth(c.data, month).value;
    var u := r.data[i].usage;
    assert u == SetYear(c.data[i].usage, year, CellValue(text));
    forall y ensures InData(r.data, y) <==> InData(c.data, y) || y == year {
      if InData(r.data, y) {
        var a :| 0 <= a < |r.data| && HasYear(r.data[a].usage, y);
        if a != i {
          assert r.data[a] == c.data[a];
        }
      }
      if y == year {
        assert HasYear(u, y);
      }
      if InData(c.data, y) {
        var a :| 0 <= a < |c.data| && HasYear(c.data[a].usage, y);
        if a == i {
          assert HasYear(u, y);
        } else {
          assert r.data[a] == c.data[a];
        }
      }
    }
  }

  // ---- flagging a cell ----

  const ChartsPrefix: string := "usageCharts."

  /** What follows the chart index in the pattern for a cell. */
  function UsageTail(ui: nat): string {
    ".usage." + (NatToString(ui) + ".value")
  }

  function CellTail(mi: nat, ui: nat): (t: string)
    ensures |t| > 0 && t[0] == '.'
  {
    ".data." + (NatToString(mi) + UsageTail(ui))
  }

  /** The pattern matched at the very start of `s`: `usageCharts.`, one or
      more digits, then `tail`. The digits end where the first non-digit
      is, because `tail` starts with a dot. */
  predicate MatchesHere(s: string, tail: string) {
    && StartsWith(s, ChartsPrefix)
    && var n := NumParse.DigitRun(s[|ChartsPrefix|..]);
       n >= 1 && StartsWith(s[|ChartsPrefix| + n..], tail)
  }

  /** The unanchored pattern `usageCharts\.\d+<tail>`, found anywhere in `s`. */
  function Search(s: string, tail: string): (r: bool)
    ensures r <==> exists p :: 0 <= p <= |s| && MatchesHere(s[p..], tail)
    decreases |s|
  {
    if MatchesHere(s, tail) then
      assert s[0..] == s;
      true
    else if |s| == 0 then
      false
    else
      var r := Search(s[1..], tail);
      assert forall p :: 1 <= p <= |s| ==> s[1..][p - 1..] == s[p..];
      r
  }

  /** The same pattern as a regular expression reads it: some start, some
      non-empty run of digits. */
  ghost predicate RegexMatch(s: string, tail: string) {
    exists p, k :: 0 <= p && p + |ChartsPrefix| + k <= |s| && k >= 1 && PatternAt(s, tail, p, k)
  }

  predicate PatternAt(s: string, tail: string, p: nat, k: nat)
    requires p + |ChartsPrefix| + k <= |s|
  {
    && StartsWith(s[p..], ChartsPrefix)
    && AllDigits(s[p + |ChartsPrefix|..p + |ChartsPrefix| + k])
    && StartsWith(s[p + |ChartsPrefix| + k..], tail)
  }

  /** Backtracking over the digit run cannot find another match: the
      scan agrees with the regular expression. */
  lemma SearchIsRegex(s: string, tail: string)
    requires |tail| > 0 && tail[0] == '.'
    ensures Search(s, tail) <==> RegexMatch(s, tail)
  {
    if Search(s, tail) {
      var p :| 0 <= p <= |s| && MatchesHere(s[p..], tail);
      var n := HereGivesPattern(s, tail, p);
    }
    if RegexMatch(s, tail) {
      var p, k :| 0 <= p && p + |ChartsPrefix| + k <= |s| && k >= 1 && PatternAt(s, tail, p, k);
      PatternGivesHere(s, tail, p, k);
    }
  }

  lemma HereGivesPattern(s: string, tail: string, p: nat) returns (n: nat)
    requires p <= |s| && MatchesHere(s[p..], tail)
    ensures p + |ChartsPrefix| + n <= |s| && n >= 1 && PatternAt(s, tail, p, n)
  {
    var L := |ChartsPrefix|;
    n := NumParse.DigitRun(s[p..][L..]);
    NumParse.DigitRunSpec(s[p..][L..]);
    assert s[p..][L..] == s[p + L..];
    assert s[p..][L + n..] == s[p + L + n..];
    assert s[p + L..][..n] == s[p + L..p + L + n];
  }

  lemma PatternGivesHere(s: string, tail: string, p: nat, k: nat)
    requires |tail| > 0 && tail[0] == '.'
    requires p + |ChartsPrefix| + k <= |s| && k >= 1 && PatternAt(s, tail, p, k)
    ensures MatchesHere(s[p..], tail)
  {
    var L := |ChartsPrefix|;
    var t := s[p..];
    assert t[L..] == s[p + L..];
    assert t[L..][..k] == s[p + L..p + L + k];
    assert s[p + L + k..][..|tail|] == tail;
    assert t[L..][k] == tail[0];
    NumParse.DigitRunIs(t[L..], k);
    assert t[L + k..] == s[p + L + k..];
  }

  /** The first question that `p` holds of, in order. */
  function FirstWhere(qs: seq<VerificationQuestion>, p: VerificationQuestion -> bool): (r: Option<VerificationQuestion>)
    ensures r.Some? ==> exists k :: 0 <= k < |qs| && qs[k] == r.value && p(qs[k]) && forall j :: 0 <= j < k ==> !p(qs[j])
    ensures r.None? <==> forall k :: 0 <= k < |qs| ==> !p(qs[k])
  {
    if |qs| == 0 then None
    else if p(qs[0]) then Some(qs[0])
    else
      var r := FirstWhere(qs[1..], p);
      assert forall k :: 1 <= k < |qs| ==> qs[k] == qs[1..][k - 1];
      if r.Some? then
        var k :| 0 <= k < |qs[1..]| && qs[1..][k] == r.value && p(qs[1..][k]) && forall j :: 0 <= j < k ==> !p(qs[1..][j]);
        assert qs[k + 1] == r.value;
        r
      else r
  }

  /** The first question whose field contains the pattern. */
  function FirstFlag(qs: seq<VerificationQuestion>, tail: string): (r: Option<VerificationQuestion>)
    ensures r.Some? ==> exists k :: 0 <= k < |qs| && qs[k] == r.value && Search(qs[k].field, tail) && forall j :: 0 <= j < k ==> !Search(qs[j].field, tail)
    ensures r.None? <==> forall k :: 0 <= k < |qs| ==> !Search(qs[k].field, tail)
  {
    FirstWhere(qs, (q: VerificationQuestion) => Search(q.field, tail))
  }

  /** `getVerificationQuestionForField(monthIndex, year)`: no flag without
      questions or when the row has no entry for `year`; otherwise the first
      question naming this row and entry under any chart index. */
  function Flag(c: UsageChartData, qs: Option<seq<VerificationQuestion>>, mi: nat, year: string): (r: Option<VerificationQuestion>)
    requires mi < |c.data|
    ensures qs.None? || FindYear(c.data[mi].usage, year).None? ==> r.None?
    ensures r.Some? ==> r.value in qs.value && Search(r.value.field, CellTail(mi, FindYear(c.data[mi].usage, year).value))
    ensures qs.Some? && FindYear(c.data[mi].usage, year).Some? ==>
      var tail := CellTail(mi, FindYear(c.data[mi].usage, year).value);
      && (r.None? <==> forall k :: 0 <= k < |qs.value| ==> !Search(qs.value[k].field, tail))
      && (r.Some? ==> exists k :: 0 <= k < |qs.value| && qs.value[k] == r.value
                        && forall j :: 0 <= j < k ==> !Search(qs.value[j].field, tail))
  {
    if qs.None? then None
    else
      match FindYear(c.data[mi].usage, year)
      case None => None
      case Some(ui) => FirstFlag(qs.value, CellTail(mi, ui))
  }

  /** The path a question names cell (mi, ui) of chart `chart` by. */
  function CellPath(chart: nat, mi: nat, ui: nat): string {
    ChartsPrefix + (NatToString(chart) + CellTail(mi, ui))
  }

  predicate NoC(s: string) { forall i :: 0 <= i < |s| ==> s[i] != 'C' }

  lemma DigitsNoC(s: string)
    requires AllDigits(s)
    ensures NoC(s)
  {
    forall i | 0 <= i < |s| ensures s[i] != 'C' { assert IsDigit(s[i]); }
  }

  lemma NoCAppend(a: string, b: string)
    requires NoC(a) && NoC(b)
    ensures NoC(a + b)
  {
    forall i | 0 <= i < |a + b| ensures (a + b)[i] != 'C' {
      if i >= |a| { assert (a + b)[i] == b[i - |a|]; }
    }
  }

  /** Only the prefix of a path holds a capital C. */
  lemma TailNoC(chart: nat, mi: nat, ui: nat)
    ensures NoC(NatToString(chart) + CellTail(mi, ui))
  {
    DigitsNoC(NatToString(chart));
    DigitsNoC(NatToString(mi));
    DigitsNoC(NatToString(ui));
    NoCAppend(NatToString(ui), ".value");
    NoCAppend(".usage.", NatToString(ui) + ".value");
    NoCAppend(NatToString(mi), UsageTail(ui));
    NoCAppend(".data.", NatToString(mi) + UsageTail(ui));
    NoCAppend(NatToString(chart), CellTail(mi, ui));
  }

  lemma StripPrefix(p: string, s: string, t: string)
    ensures StartsWith(p + s, p + t) <==> StartsWith(s, t)
  {
    if StartsWith(s, t) {
      assert (p + s)[..|p + t|] == p + s[..|t|];
    }
    if StartsWith(p + s, p + t) {
      assert s[..|t|] == (p + s)[..|p + t|][|p|..];
    }
  }

  /** Two digit strings each followed by a dot: one text starts with the
      other only when the digit strings are equal. */
  lemma DigitsPrefix(a: string, b: string, x: string, y: string)
    requires AllDigits(a) && AllDigits(b)
    requires |x| > 0 && x[0] == '.' && |y| > 0 && y[0] == '.'
    requires StartsWith(a + x, b + y)
    ensures a == b && StartsWith(x, y)
  {
    var s, t := a + x, b + y;
    assert s[..|t|] == t;
    NumParse.DigitRunAppend(a, x);
    NumParse.DigitRunAll(a);
    assert s[..|b|] == b && s[|b|] == '.';
    NumParse.DigitRunIs(s, |b|);
    assert a == s[..|a|] == t[..|a|] == b;
    assert x[..|y|] == s[..|t|][|a|..];
  }

  lemma TailMatches(mi: nat, ui: nat, mi': nat, ui': nat)
    ensures StartsWith(CellTail(mi, ui), CellTail(mi', ui')) <==> mi == mi' && ui == ui'
  {
    if StartsWith(CellTail(mi, ui), CellTail(mi', ui')) {
      StripPrefix(".data.", NatToString(mi) + UsageTail(ui), NatToString(mi') + UsageTail(ui'));
      DigitsPrefix(NatToString(mi), NatToString(mi'), UsageTail(ui), UsageTail(ui'));
      StripPrefix(".usage.", NatToString(ui) + ".value", NatToString(ui') + ".value");
      DigitsPrefix(NatToString(ui), NatToString(ui'), ".value", ".value");
      NatToStringInjective(mi, mi');
      NatToStringInjective(ui, ui');
    }
  }

  /** The only capital C of a path is the one in `usageCharts`. */
  lemma PathNoCAfterPrefix(chart: nat, mi: nat, ui: nat)
    ensures forall i :: 6 <= i < |CellPath(chart, mi, ui)| ==> CellPath(chart, mi, ui)[i] != 'C'
  {
    var rest := NatToString(chart) + CellTail(mi, ui);
    TailNoC(chart, mi, ui);
    NoCAppend("harts.", rest);
    assert CellPath(chart, mi, ui) == "usageC" + ("harts." + rest);
  }

  /** So the pattern can only begin at the start of a path. */
  lemma MatchOnlyAtStart(chart: nat, mi: nat, ui: nat, tail: string, p: nat)
    requires p <= |CellPath(chart, mi, ui)|
    requires MatchesHere(CellPath(chart, mi, ui)[p..], tail)
    ensures p == 0
  {
    var s := CellPath(chart, mi, ui);
    assert s[p..][..|ChartsPrefix|] == ChartsPrefix;
    assert s[p + 5] == s[p..][..|ChartsPrefix|][5] == 'C';
    PathNoCAfterPrefix(chart, mi, ui);
  }

  /** At the start of a path the chart index is skipped and the rest must
      begin with the tail. */
  lemma MatchAtStart(chart: nat, mi: nat, ui: nat, tail: string)
    ensures MatchesHere(CellPath(chart, mi, ui), tail) <==> StartsWith(CellTail(mi, ui), tail)
  {
    var s := CellPath(chart, mi, ui);
    var rest := NatToString(chart) + CellTail(mi, ui);
    var L := |ChartsPrefix|;
    assert s[..L] == ChartsPrefix && s[L..] == rest;
    NumParse.DigitRunAppend(NatToString(chart), CellTail(mi, ui));
    NumParse.DigitRunAll(NatToString(chart));
    assert s[L + |NatToString(chart)|..] == rest[|NatToString(chart)|..] == CellTail(mi, ui);
  }

  /** A question naming cell (mi, ui) of any chart flags exactly that cell's
      pattern: the chart index is ignored and the other indices must agree. */
  lemma PathFlags(chart: nat, mi: nat, ui: nat, mi': nat, ui': nat)
    ensures Search(CellPath(chart, mi, ui), CellTail(mi', ui')) <==> mi == mi' && ui == ui'
  {
    var s := CellPath(chart, mi, ui);
    var t := CellTail(mi', ui');
    TailMatches(mi, ui, mi', ui');
    MatchAtStart(chart, mi, ui, t);
    assert s[0..] == s;
    if Search(s, t) {
      var p :| 0 <= p <= |s| && MatchesHere(s[p..], t);
      MatchOnlyAtStart(chart, mi, ui, t, p);
    }
  }

  /** Whatever chart a question names, it flags the cell its row and entry
      indices point to. */
  lemma FlagIgnoresChart(c: UsageChartData, chart: nat, mi: nat, year: string, question: string)
    requires mi < |c.data|
    requires FindYear(c.data[mi].usage, year).Some?
    ensures var q := VerificationQuestion(CellPath(chart, mi, FindYear(c.data[mi].usage, year).value), question);
            Flag(c, Some([q]), mi, year) == Some(q)
  {
    var ui := FindYear(c.data[mi].usage, year).value;
    PathFlags(chart, mi, ui, mi, ui);
  }
}
