/** The label pattern of the flat-row repair,
    `/([a-zA-Z]{3,})\.?\s*,?\s*(\d{4})/` applied with `String.prototype.match`
    (unanchored, leftmost match): a month token of three or more ASCII
    letters, an optional point, white space, an optional comma, white space
    and a four-digit year. */
module MonthLabel {
  import opened Wrappers
  import opened Text

  /** The number of ASCII letters from position `p` on. */
  function LetterRun(s: string, p: nat): (n: nat)
    requires p <= |s|
    ensures p + n <= |s| && AllLetters(s[p..p + n])
    ensures p + n < |s| ==> !IsAsciiLetter(s[p + n])
    decreases |s| - p
  {
    if p < |s| && IsAsciiLetter(s[p]) then
      var n := LetterRun(s, p + 1);
      assert s[p..p + 1 + n] == [s[p]] + s[p + 1..p + 1 + n];
      1 + n
    else 0
  }

  /** The first position at or after `q` that is not white space. */
  function SpaceEnd(s: string, q: nat): (e: nat)
    requires q <= |s|
    ensures q <= e <= |s| && AllSpace(s[q..e])
    ensures e < |s| ==> !IsJsSpace(s[e])
    decreases |s| - q
  {
    if q < |s| && IsJsSpace(s[q]) then SpaceEnd(s, q + 1) else q
  }

  /** Where `\.?\s*,?\s*` ends when it starts at `q`. Taking each part as
      long as possible loses no match: the year that must follow starts
      with a digit, which none of the parts can consume. */
  function SeparatorEnd(s: string, q: nat): (e: nat)
    requires q <= |s|
    ensures q <= e <= |s|
  {
    var a := if q < |s| && s[q] == '.' then q + 1 else q;
    var b := SpaceEnd(s, a);
    var c := if b < |s| && s[b] == ',' then b + 1 else b;
    SpaceEnd(s, c)
  }

  /** The match starting exactly at `p`: the letters from `p` (all of them;
      giving some back cannot help, since a letter cannot start the
      separator or the year), the separator, four digits. */
  function MatchAt(s: string, p: nat): (o: Option<(string, string)>)
    requires p <= |s|
    ensures o.Some? ==> |o.value.0| >= 3 && AllLetters(o.value.0) && |o.value.1| == 4 && AllDigits(o.value.1)
    ensures o.Some? ==> p + |o.value.0| <= |s| && o.value.0 == s[p..p + |o.value.0|]
    ensures o.Some? ==> p + |o.value.0| < |s| ==> !IsAsciiLetter(s[p + |o.value.0|])
    ensures o.Some? ==> var q := SeparatorEnd(s, p + |o.value.0|); q + 4 <= |s| && o.value.1 == s[q..q + 4]
  {
    var n := LetterRun(s, p);
    if n < 3 then None
    else
      var q := SeparatorEnd(s, p + n);
      if q + 4 <= |s| && AllDigits(s[q..q + 4]) then Some((s[p..p + n], s[q..q + 4])) else None
  }

  /** The leftmost match at or after `p`. */
  function MatchFrom(s: string, p: nat): (o: Option<(string, string)>)
    requires p <= |s|
    ensures o.None? ==> forall k :: p <= k <= |s| ==> MatchAt(s, k).None?
    ensures o.Some? ==> exists k :: p <= k <= |s| && MatchAt(s, k) == o && forall j :: p <= j < k ==> MatchAt(s, j).None?
    decreases |s| - p
  {
    if p == |s| then MatchAt(s, p)
    else match MatchAt(s, p)
      case Some(m) => Some(m)
      case None => MatchFrom(s, p + 1)
  }

  /** `label.match(pattern)` as `(match[1], match[2])`: the month token and
      the year of the leftmost match, or `None` when nothing matches. */
  function MatchLabel(s: string): (o: Option<(string, string)>)
    ensures o.Some? ==> |o.value.0| >= 3 && AllLetters(o.value.0)
    ensures o.Some? ==> |o.value.1| == 4 && AllDigits(o.value.1)
    ensures o.None? ==> forall k :: 0 <= k <= |s| ==> MatchAt(s, k).None?
    ensures o.Some? ==> exists k :: 0 <= k <= |s| && MatchAt(s, k) == o && forall j :: 0 <= j < k ==> MatchAt(s, j).None?
  {
    MatchFrom(s, 0)
  }

  // ---- the pattern as a layout of the label ----

  /** The text from `p` is `n >= 3` letters, an optional point (`d`), `k1`
      white-space characters, an optional comma (`c`), `k2` white-space
      characters and four digits. */
  ghost predicate Layout(s: string, p: nat, n: nat, d: nat, k1: nat, c: nat, k2: nat) {
    && n >= 3 && d <= 1 && c <= 1
    && p + n + d + k1 + c + k2 + 4 <= |s|
    && AllLetters(s[p..p + n])
    && (d == 1 ==> s[p + n] == '.')
    && AllSpace(s[p + n + d..p + n + d + k1])
    && (c == 1 ==> s[p + n + d + k1] == ',')
    && AllSpace(s[p + n + d + k1 + c..p + n + d + k1 + c + k2])
    && AllDigits(s[p + n + d + k1 + c + k2..p + n + d + k1 + c + k2 + 4])
  }

  /** The pattern matches at `p` with month token `m` and year `y`: some
      way of laying the pattern out from `p` captures exactly these. */
  ghost predicate LabelAt(s: string, p: nat, m: string, y: string) {
    exists d: nat, k1: nat, c: nat, k2: nat ::
      && Layout(s, p, |m|, d, k1, c, k2)
      && m == s[p..p + |m|]
      && y == s[p + |m| + d + k1 + c + k2..p + |m| + d + k1 + c + k2 + 4]
  }

  /** The pattern matches at `p` at all. */
  ghost predicate MatchesAt(s: string, p: nat) {
    exists m: string, y: string :: LabelAt(s, p, m, y)
  }

  /** The scan at `p` finds exactly what the pattern captures at `p`. */
  lemma MatchAtIsLayout(s: string, p: nat, m: string, y: string)
    requires p <= |s|
    ensures MatchAt(s, p) == Some((m, y)) <==> LabelAt(s, p, m, y)
  {
    if MatchAt(s, p) == Some((m, y)) {
      MatchAtGivesLayout(s, p);
    }
    if LabelAt(s, p, m, y) {
      LayoutGivesMatch(s, p, m, y);
    }
  }

  lemma LayoutGivesMatch(s: string, p: nat, m: string, y: string)
    requires LabelAt(s, p, m, y)
    ensures MatchAt(s, p) == Some((m, y))
  {
    var d: nat, k1: nat, c: nat, k2: nat :|
      && Layout(s, p, |m|, d, k1, c, k2)
      && m == s[p..p + |m|]
      && y == s[p + |m| + d + k1 + c + k2..p + |m| + d + k1 + c + k2 + 4];
    MatchAtExact(s, p, |m|, d, k1, c, k2);
  }

  /** The parts the greedy scan found, as a layout. */
  lemma MatchAtGivesLayout(s: string, p: nat)
    requires p <= |s| && MatchAt(s, p).Some?
    ensures LabelAt(s, p, MatchAt(s, p).value.0, MatchAt(s, p).value.1)
  {
    var m := MatchAt(s, p).value.0;
    var y := MatchAt(s, p).value.1;
    LayoutOfScan(s, p, m, y);
  }

  /** Letters from `p` and four digits where the separator scan stops make
      a layout. */
  lemma LayoutOfScan(s: string, p: nat, m: string, y: string)
    requires |m| >= 3 && AllLetters(m) && |y| == 4 && AllDigits(y)
    requires p + |m| <= |s| && m == s[p..p + |m|]
    requires SeparatorEnd(s, p + |m|) + 4 <= |s|
    requires y == s[SeparatorEnd(s, p + |m|)..SeparatorEnd(s, p + |m|) + 4]
    ensures LabelAt(s, p, m, y)
  {
    var q := p + |m|;
    var d, k1, c, k2 := SeparatorParts(s, q);
    LayoutOfParts(s, p, m, y, q, d, k1, c, k2);
  }

  /** The four optional parts the separator scan from `q` passed over. */
  lemma SeparatorParts(s: string, q: nat) returns (d: nat, k1: nat, c: nat, k2: nat)
    requires q <= |s|
    ensures d <= 1 && c <= 1 && q + d + k1 + c + k2 == SeparatorEnd(s, q)
    ensures d == 1 ==> s[q] == '.'
    ensures AllSpace(s[q + d..q + d + k1])
    ensures c == 1 ==> s[q + d + k1] == ','
    ensures AllSpace(s[q + d + k1 + c..q + d + k1 + c + k2])
  {
    var a := if q < |s| && s[q] == '.' then q + 1 else q;
    var b := SpaceEnd(s, a);
    var cc := if b < |s| && s[b] == ',' then b + 1 else b;
    var e := SpaceEnd(s, cc);
    d, k1, c, k2 := a - q, b - a, cc - b, e - cc;
  }

  /** Parts that meet the layout conditions one by one make a layout. */
  lemma LayoutOfParts(s: string, p: nat, m: string, y: string, q: nat, d: nat, k1: nat, c: nat, k2: nat)
    requires |m| >= 3 && AllLetters(m) && |y| == 4 && AllDigits(y) && d <= 1 && c <= 1
    requires q == p + |m| && q + d + k1 + c + k2 + 4 <= |s|
    requires m == s[p..q]
    requires d == 1 ==> s[q] == '.'
    requires AllSpace(s[q + d..q + d + k1])
    requires c == 1 ==> s[q + d + k1] == ','
    requires AllSpace(s[q + d + k1 + c..q + d + k1 + c + k2])
    requires y == s[q + d + k1 + c + k2..q + d + k1 + c + k2 + 4]
    ensures LabelAt(s, p, m, y)
  {
    assert Layout(s, p, |m|, d, k1, c, k2);
  }

  lemma MatchesAtIff(s: string, p: nat)
    requires p <= |s|
    ensures MatchAt(s, p).Some? <==> MatchesAt(s, p)
  {
    if MatchAt(s, p).Some? {
      MatchAtGivesLayout(s, p);
    }
    if MatchesAt(s, p) {
      var m: string, y: string :| LabelAt(s, p, m, y);
      MatchAtIsLayout(s, p, m, y);
    }
  }

  /** `label.match(pattern)` captures `m` and `y` exactly when the pattern
      matches at some position with these captures and at no earlier
      position: the leftmost match, read off the label itself. */
  lemma MatchLabelIsLeftmost(s: string, m: string, y: string)
    ensures MatchLabel(s) == Some((m, y)) <==>
      exists k :: 0 <= k <= |s| && LabelAt(s, k, m, y) && forall j :: 0 <= j < k ==> !MatchesAt(s, j)
  {
    if MatchLabel(s) == Some((m, y)) {
      var k :| 0 <= k <= |s| && MatchAt(s, k) == Some((m, y)) && forall j :: 0 <= j < k ==> MatchAt(s, j).None?;
      MatchAtIsLayout(s, k, m, y);
      forall j | 0 <= j < k ensures !MatchesAt(s, j) {
        MatchesAtIff(s, j);
      }
    }
    if exists k :: 0 <= k <= |s| && LabelAt(s, k, m, y) && forall j :: 0 <= j < k ==> !MatchesAt(s, j) {
      var k :| 0 <= k <= |s| && LabelAt(s, k, m, y) && forall j :: 0 <= j < k ==> !MatchesAt(s, j);
      MatchAtIsLayout(s, k, m, y);
      forall j | 0 <= j < k ensures MatchAt(s, j).None? {
        MatchesAtIff(s, j);
      }
      LeftmostIsFound(s, k);
    }
  }

  /** A position where the scan succeeds after failing everywhere before is
      what `MatchLabel` returns. */
  lemma LeftmostIsFound(s: string, k: nat)
    requires k <= |s| && MatchAt(s, k).Some?
    requires forall j :: 0 <= j < k ==> MatchAt(s, j).None?
    ensures MatchLabel(s) == MatchAt(s, k)
  {
    var o := MatchLabel(s);
    if o.Some? {
      var k' :| 0 <= k' <= |s| && MatchAt(s, k') == o && forall j :: 0 <= j < k' ==> MatchAt(s, j).None?;
      assert k' == k;
    }
  }

  /** No position matches exactly when `MatchLabel` finds nothing. */
  lemma MatchLabelNone(s: string)
    ensures MatchLabel(s).None? <==> forall k :: 0 <= k <= |s| ==> !MatchesAt(s, k)
  {
    forall k | 0 <= k <= |s| ensures MatchAt(s, k).Some? <==> MatchesAt(s, k) {
      MatchesAtIff(s, k);
    }
  }

  // ---- every well-formed label is recognised ----

  lemma {:induction false} LetterRunExact(s: string, p: nat, k: nat)
    requires p + k <= |s| && AllLetters(s[p..p + k])
    requires p + k < |s| ==> !IsAsciiLetter(s[p + k])
    ensures LetterRun(s, p) == k
    decreases k
  {
    if k > 0 {
      assert IsAsciiLetter(s[p..p + k][0]);
      assert s[p + 1..p + k] == s[p..p + k][1..];
      LetterRunExact(s, p + 1, k - 1);
    }
  }

  lemma {:induction false} SpaceEndExact(s: string, q: nat, k: nat)
    requires q + k <= |s| && AllSpace(s[q..q + k])
    requires q + k < |s| ==> !IsJsSpace(s[q + k])
    ensures SpaceEnd(s, q) == q + k
    decreases k
  {
    if k > 0 {
      assert IsJsSpace(s[q..q + k][0]);
      assert s[q + 1..q + k] == s[q..q + k][1..];
      SpaceEndExact(s, q + 1, k - 1);
    }
  }

  lemma AllSpaceJoin(s: string, i: nat, j: nat, k: nat)
    requires i <= j <= k <= |s| && AllSpace(s[i..j]) && AllSpace(s[j..k])
    ensures AllSpace(s[i..k])
  {
    forall x | 0 <= x < k - i ensures IsJsSpace(s[i..k][x]) {
      if x < j - i { assert s[i..k][x] == s[i..j][x]; } else { assert s[i..k][x] == s[j..k][x - (j - i)]; }
    }
  }

  /** The greedy separator scan stops exactly before the year when the text
      from `q` is an optional point (`d`), `k1` spaces, an optional comma
      (`c`), `k2` spaces and a digit. */
  lemma SeparatorEndExact(s: string, q: nat, d: nat, k1: nat, c: nat, k2: nat)
    requires d <= 1 && c <= 1
    requires q + d + k1 + c + k2 < |s|
    requires d == 1 ==> s[q] == '.'
    requires AllSpace(s[q + d..q + d + k1])
    requires c == 1 ==> s[q + d + k1] == ','
    requires AllSpace(s[q + d + k1 + c..q + d + k1 + c + k2])
    requires IsDigit(s[q + d + k1 + c + k2])
    ensures SeparatorEnd(s, q) == q + d + k1 + c + k2
  {
    SeparatorStartsWithNonLetter(s, q, d, k1, c, k2);
    var a := q + d;
    var e := q + d + k1 + c + k2;
    if c == 1 {
      CommaSeparatorEnd(s, a, k1, k2);
      SeparatorEndSteps(s, q, a, a + k1, a + k1 + 1, e);
    } else {
      PlainSeparatorEnd(s, a, k1, k2);
      SeparatorEndSteps(s, q, a, e, e, e);
    }
  }

  /** The separator scan, one step at a time. */
  lemma SeparatorEndSteps(s: string, q: nat, a: nat, b: nat, c: nat, e: nat)
    requires q <= |s| && a == (if q < |s| && s[q] == '.' then q + 1 else q)
    requires b <= |s| && SpaceEnd(s, a) == b
    requires c <= |s| && c == (if b < |s| && s[b] == ',' then b + 1 else b)
    requires SpaceEnd(s, c) == e
    ensures SeparatorEnd(s, q) == e
  {
  }

  /** After the point: spaces, a comma, spaces, a digit. */
  lemma CommaSeparatorEnd(s: string, a: nat, k1: nat, k2: nat)
    requires a + k1 + 1 + k2 < |s|
    requires AllSpace(s[a..a + k1]) && s[a + k1] == ','
    requires AllSpace(s[a + k1 + 1..a + k1 + 1 + k2]) && IsDigit(s[a + k1 + 1 + k2])
    ensures SpaceEnd(s, a) == a + k1 && SpaceEnd(s, a + k1 + 1) == a + k1 + 1 + k2
  {
    SpaceEndExact(s, a, k1);
    SpaceEndExact(s, a + k1 + 1, k2);
  }

  /** After the point: spaces and no comma, then a digit. */
  lemma PlainSeparatorEnd(s: string, a: nat, k1: nat, k2: nat)
    requires a + k1 + k2 < |s|
    requires AllSpace(s[a..a + k1]) && AllSpace(s[a + k1..a + k1 + k2]) && IsDigit(s[a + k1 + k2])
    ensures SpaceEnd(s, a) == a + k1 + k2 && s[a + k1 + k2] != ','
    ensures SpaceEnd(s, a + k1 + k2) == a + k1 + k2
  {
    AllSpaceJoin(s, a, a + k1, a + k1 + k2);
    SpaceEndExact(s, a, k1 + k2);
    SpaceEndExact(s, a + k1 + k2, 0);
  }

  /** The separator text `\.?\s*,?\s*` as its four optional parts. */
  function Separator(dot: bool, w1: string, comma: bool, w2: string): string {
    (if dot then "." else "") + w1 + (if comma then "," else "") + w2
  }

  lemma MatchAtFromParts(s: string, p: nat, n: nat, e: nat)
    requires n >= 3 && p + n <= e && e + 4 <= |s|
    requires LetterRun(s, p) == n
    requires SeparatorEnd(s, p + n) == e
    requires AllDigits(s[e..e + 4])
    ensures MatchAt(s, p) == Some((s[p..p + n], s[e..e + 4]))
  {
  }

  lemma SeparatorStartsWithNonLetter(s: string, q: nat, d: nat, k1: nat, c: nat, k2: nat)
    requires d <= 1 && c <= 1
    requires q + d + k1 + c + k2 < |s|
    requires d == 1 ==> s[q] == '.'
    requires AllSpace(s[q + d..q + d + k1])
    requires c == 1 ==> s[q + d + k1] == ','
    requires AllSpace(s[q + d + k1 + c..q + d + k1 + c + k2])
    requires IsDigit(s[q + d + k1 + c + k2])
    ensures !IsAsciiLetter(s[q])
    ensures d == 0 ==> s[q] != '.'
  {
    if d == 1 { }
    else if k1 > 0 { assert IsJsSpace(s[q + d..q + d + k1][0]); }
    else if c == 1 { }
    else if k2 > 0 { assert IsJsSpace(s[q + d + k1 + c..q + d + k1 + c + k2][0]); }
  }

  /** The match at `p` when the text there is `n >= 3` letters, a separator
      laid out as in SeparatorEndExact, and four digits. */
  lemma MatchAtExact(s: string, p: nat, n: nat, d: nat, k1: nat, c: nat, k2: nat)
    requires n >= 3 && d <= 1 && c <= 1
    requires p + n + d + k1 + c + k2 + 4 <= |s|
    requires AllLetters(s[p..p + n])
    requires d == 1 ==> s[p + n] == '.'
    requires AllSpace(s[p + n + d..p + n + d + k1])
    requires c == 1 ==> s[p + n + d + k1] == ','
    requires AllSpace(s[p + n + d + k1 + c..p + n + d + k1 + c + k2])
    requires AllDigits(s[p + n + d + k1 + c + k2..p + n + d + k1 + c + k2 + 4])
    ensures MatchAt(s, p) == Some((s[p..p + n], s[p + n + d + k1 + c + k2..p + n + d + k1 + c + k2 + 4]))
  {
    var q := p + n;
    var e := q + d + k1 + c + k2;
    assert IsDigit(s[e]) by { assert s[e] == s[e..e + 4][0]; }
    SeparatorStartsWithNonLetter(s, q, d, k1, c, k2);
    LetterRunExact(s, p, n);
    SeparatorEndExact(s, q, d, k1, c, k2);
    MatchAtFromParts(s, p, n, e);
  }

  /** Where each part of `m + D + w1 + C + w2 + y + rest` sits. */
  lemma LabelLayout(m: string, D: string, w1: string, C: string, w2: string, y: string, rest: string)
    requires |D| <= 1 && |C| <= 1 && |y| == 4
    ensures var s := m + D + w1 + C + w2 + y + rest;
      var n, d, c := |m|, |D|, |C|;
      var e := n + d + |w1| + c + |w2|;
      && e + 4 <= |s|
      && s[0..n] == m
      && (d == 1 ==> s[n] == D[0])
      && s[n + d..n + d + |w1|] == w1
      && (c == 1 ==> s[n + d + |w1|] == C[0])
      && s[n + d + |w1| + c..e] == w2
      && s[e..e + 4] == y
  {
    var s := m + D + w1 + C + w2 + y + rest;
    var n, d, c := |m|, |D|, |C|;
    var e := n + d + |w1| + c + |w2|;
    assert s == (m + D) + w1 + (C + w2 + y + rest);
    assert s == (m + D + w1 + C) + w2 + (y + rest);
    assert s == (m + D + w1 + C + w2) + y + rest;
  }

  /** A match at the start is the leftmost match. */
  lemma MatchLabelAtStart(s: string, x: (string, string))
    requires MatchAt(s, 0) == Some(x)
    ensures MatchLabel(s) == Some(x)
  {
  }

  /** The well-formed-label fact for a string whose parts are given by
      their lengths rather than by concatenation. */
  lemma MatchesLaidOutLabel(s: string, m: string, D: string, w1: string, C: string, w2: string, y: string)
    requires |m| >= 3 && AllLetters(m) && AllSpace(w1) && AllSpace(w2) && AllDigits(y)
    requires |D| <= 1 && |C| <= 1 && |y| == 4
    requires |D| == 1 ==> D[0] == '.'
    requires |C| == 1 ==> C[0] == ','
    requires var n, d, c := |m|, |D|, |C|;
      var e := n + d + |w1| + c + |w2|;
      && e + 4 <= |s|
      && s[0..n] == m
      && (d == 1 ==> s[n] == D[0])
      && s[n + d..n + d + |w1|] == w1
      && (c == 1 ==> s[n + d + |w1|] == C[0])
      && s[n + d + |w1| + c..e] == w2
      && s[e..e + 4] == y
    ensures MatchLabel(s) == Some((m, y))
  {
    MatchAtExact(s, 0, |m|, |D|, |w1|, |C|, |w2|);
    MatchLabelAtStart(s, (m, y));
  }

  /** A label written as a month token of three or more letters, a
      separator the pattern allows and a four-digit year (followed by
      anything) yields exactly that token and year: `"Oct, 2017"`,
      `"Oct 2017"`, `"Oct. 2017"` and `"Oct2017"` all give `("Oct", "2017")`. */
  lemma MatchesWellFormedLabel(m: string, dot: bool, w1: string, comma: bool, w2: string, y: string, rest: string)
    requires |m| >= 3 && AllLetters(m)
    requires AllSpace(w1) && AllSpace(w2)
    requires |y| == 4 && AllDigits(y)
    ensures MatchLabel(m + Separator(dot, w1, comma, w2) + y + rest) == Some((m, y))
  {
    var D: string := if dot then "." else "";
    var C: string := if comma then "," else "";
    var s := m + D + w1 + C + w2 + y + rest;
    assert m + Separator(dot, w1, comma, w2) + y + rest == s;
    LabelLayout(m, D, w1, C, w2, y, rest);
    MatchesLaidOutLabel(s, m, D, w1, C, w2, y);
  }

  /** The label `Oct, 2016` is month `Oct`, year `2016`. */
  lemma OctoberExample()
    ensures MatchLabel("Oct, 2016") == Some(("Oct", "2016"))
  {
    OctoberMatch("Oct, 2016");
  }

  lemma OctoberMatch(s: string)
    requires s == "Oct, 2016"
    ensures MatchLabel(s) == Some(("Oct", "2016"))
  {
    OctoberLayout(s);
    MatchAtExact(s, 0, 3, 0, 0, 1, 1);
    MatchLabelAtStart(s, (s[0..3], s[5..9]));
  }

  /** `"Oct, 2016"` as letters, a comma, one space and four digits. */
  lemma OctoberLayout(s: string)
    requires s == "Oct, 2016"
    ensures |s| == 9 && s[0..3] == "Oct" && s[5..9] == "2016" && s[3] == ','
    ensures AllLetters(s[0..3]) && AllSpace(s[4..5]) && AllDigits(s[5..9])
  {
    assert AllLetters(s[0..3]) by { assert IsAsciiLetter(s[0]) && IsAsciiLetter(s[1]) && IsAsciiLetter(s[2]); }
    assert AllDigits(s[5..9]) by { assert IsDigit(s[5]) && IsDigit(s[6]) && IsDigit(s[7]) && IsDigit(s[8]); }
    assert AllSpace(s[4..5]) by { assert IsJsSpace(s[4]); }
  }
}
