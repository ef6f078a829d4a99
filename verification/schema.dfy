/** The names the normaliser knows: the property names of the bill schema
    sent to the provider, the alias table used to find each canonical field
    under another spelling, and the key normalisation used for matching. */
module Schema {
  import opened Text

  /** The property names of the bill schema, in declaration order. */
  const SchemaKeys: seq<string> := [
    "accountName", "accountNumber", "serviceAddress", "statementDate",
    "servicePeriodStart", "servicePeriodEnd", "totalCurrentCharges", "dueDate",
    "confidenceScore", "confidenceReasoning", "usageCharts", "lineItems",
    "verificationQuestions"
  ]

  /** The fields the schema marks required, which are also the fields a
      bill record always carries. */
  const RequiredKeys: seq<string> := [
    "accountNumber", "totalCurrentCharges", "usageCharts", "lineItems",
    "confidenceScore", "confidenceReasoning"
  ]

  /** Each canonical field with its alternative spellings, in table order. */
  const KeyMap: seq<(string, seq<string>)> := [
    ("accountName", ["account_name"]),
    ("accountNumber", ["account_number", "invoice_number", "account_no"]),
    ("totalCurrentCharges", ["total_current_charges", "total_due", "amount_due", "total", "charges"]),
    ("statementDate", ["statement_date", "bill_date", "invoice_date"]),
    ("dueDate", ["due_date", "payment_due"]),
    ("serviceAddress", ["service_address"]),
    ("lineItems", ["line_items", "charges_details", "breakdown"]),
    ("usageCharts", ["usage_charts", "usage_history", "graphs"]),
    ("confidenceScore", ["confidence_score"]),
    ("confidenceReasoning", ["confidence_reasoning"]),
    ("verificationQuestions", ["verification_questions"])
  ]

  /** The names tried for table entry `i`: the canonical name, then its
      alternatives in order. */
  function Candidates(i: nat): (cs: seq<string>)
    requires i < |KeyMap|
    ensures |cs| == 1 + |KeyMap[i].1| && cs[0] == KeyMap[i].0
  {
    [KeyMap[i].0] + KeyMap[i].1
  }

  /** `toLowerCase` on one character, for the characters that can lower-case
      to an ASCII letter: `A`-`Z`, and the Kelvin sign, which lower-cases to
      `k`. Every other character either is not changed or lower-cases to a
      character outside ASCII, so it can never match a letter of a table
      name either way. */
  function LowerChar(c: char): (d: char)
    ensures 'A' <= c <= 'Z' ==> d as int == c as int + 32
    ensures c == '\U{212A}' ==> d == 'k'
    ensures !('A' <= c <= 'Z') && c != '\U{212A}' ==> d == c
  {
    if 'A' <= c <= 'Z' then (c as int + 32) as char
    else if c == '\U{212A}' then 'k'
    else c
  }

  /** `k.toLowerCase().replace(/_/g, '')`: the form in which a raw key and
      a table name are compared. */
  function Norm(s: string): (t: string)
    ensures |t| <= |s|
    ensures forall i :: 0 <= i < |t| ==> t[i] != '_' && !('A' <= t[i] <= 'Z')
    ensures (forall i :: 0 <= i < |s| ==> s[i] != '_') ==>
      |t| == |s| && forall i :: 0 <= i < |s| ==> t[i] == LowerChar(s[i])
    decreases |s|
  {
    if |s| == 0 then ""
    else if s[0] == '_' then Norm(s[1..])
    else
      var t := [LowerChar(s[0])] + Norm(s[1..]);
      assert forall i :: 1 <= i < |s| ==> s[1..][i - 1] == s[i];
      t
  }

  /** One character: an underscore vanishes, anything else is lower-cased. */
  lemma NormChar(c: char)
    ensures Norm([c]) == if c == '_' then "" else [LowerChar(c)]
  {
    assert [c][1..] == "";
  }

  /** An underscore anywhere in a key is removed and changes nothing else:
      `account_number` and `accountnumber` have the same normal form. */
  lemma NormDropsUnderscore(a: string, b: string)
    ensures Norm(a + "_" + b) == Norm(a + b)
  {
    NormAppend(a + "_", b);
    NormAppend(a, "_");
    NormChar('_');
    NormAppend(a, b);
  }

  /** A name that does not start with an underscore keeps its first
      character, lower-cased, when normalised; in particular its normal
      form is not empty. */
  lemma NormHead(s: string)
    requires |s| > 0 && s[0] != '_'
    ensures |Norm(s)| > 0 && Norm(s)[0] == LowerChar(s[0])
  {
  }

  /** Lower-case ASCII text without underscores is its own normal form. */
  lemma {:induction false} NormOfNormal(s: string)
    requires forall i :: 0 <= i < |s| ==> s[i] != '_' && !('A' <= s[i] <= 'Z')
    requires forall i :: 0 <= i < |s| ==> s[i] != '\U{212A}'
    ensures Norm(s) == s
    decreases |s|
  {
    if |s| > 0 {
      NormOfNormal(s[1..]);
      assert s == [s[0]] + s[1..];
    }
  }

  /** Normalisation works character by character. */
  lemma {:induction false} NormAppend(a: string, b: string)
    ensures Norm(a + b) == Norm(a) + Norm(b)
    decreases |a|
  {
    if |a| == 0 {
      assert a + b == b;
    } else {
      assert (a + b)[0] == a[0];
      assert (a + b)[1..] == a[1..] + b;
      NormAppend(a[1..], b);
    }
  }

  /** A printed array index never matches a table name: its normal form is
      itself, all digits, while every table name starts with a letter. */
  lemma {:induction false} NormOfDigits(s: string)
    requires AllDigits(s)
    ensures Norm(s) == s
    decreases |s|
  {
    if |s| > 0 {
      NormOfDigits(s[1..]);
      assert s == [s[0]] + s[1..];
    }
  }

  /** Every name tried for a canonical field starts with a letter. */
  lemma CandidatesStartWithLetter(i: nat, j: nat)
    requires i < |KeyMap| && j < |Candidates(i)|
    ensures |Candidates(i)[j]| > 0 && IsAsciiLetter(Candidates(i)[j][0])
  {
    var cs := Candidates(i);
    assert i == 0 || i == 1 || i == 2 || i == 3 || i == 4 || i == 5 || i == 6 || i == 7 || i == 8 || i == 9 || i == 10;
  }

  /** Length and first letter of each canonical name, as one number; no
      two entries share it. */
  const NameCodes: seq<int> := [
    11 * 128 + 'a' as int, 13 * 128 + 'a' as int, 19 * 128 + 't' as int, 13 * 128 + 's' as int,
    7 * 128 + 'd' as int, 14 * 128 + 's' as int, 9 * 128 + 'l' as int, 11 * 128 + 'u' as int,
    15 * 128 + 'c' as int, 19 * 128 + 'c' as int, 21 * 128 + 'v' as int
  ]

  lemma CanonicalNameCode(i: nat)
    requires i < |KeyMap|
    ensures |KeyMap[i].0| > 0 && |NameCodes| == |KeyMap|
    ensures |KeyMap[i].0| * 128 + KeyMap[i].0[0] as int == NameCodes[i]
  {
    assert i == 0 || i == 1 || i == 2 || i == 3 || i == 4 || i == 5 || i == 6 || i == 7 || i == 8 || i == 9 || i == 10;
  }

  lemma NameCodesDistinct(i: nat, j: nat)
    requires i < |NameCodes| && j < |NameCodes| && NameCodes[i] == NameCodes[j]
    ensures i == j
  {
    assert i == 0 || i == 1 || i == 2 || i == 3 || i == 4 || i == 5 || i == 6 || i == 7 || i == 8 || i == 9 || i == 10;
  }

  /** The canonical names are all schema properties; the two schema
      properties without an entry in the table are the service-period
      dates. */
  lemma CanonicalNamesAreSchemaKeys(i: nat)
    requires i < |KeyMap|
    ensures KeyMap[i].0 in SchemaKeys
    ensures KeyMap[i].0 != "servicePeriodStart" && KeyMap[i].0 != "servicePeriodEnd"
  {
    assert i == 0 || i == 1 || i == 2 || i == 3 || i == 4 || i == 5 || i == 6 || i == 7 || i == 8 || i == 9 || i == 10;
  }

  lemma SchemaKeysOutsideTable(k: string)
    requires k in SchemaKeys
    requires forall i :: 0 <= i < |KeyMap| ==> KeyMap[i].0 != k
    ensures k == "servicePeriodStart" || k == "servicePeriodEnd"
  {
    assert KeyMap[0].0 == "accountName" && KeyMap[1].0 == "accountNumber" && KeyMap[2].0 == "totalCurrentCharges";
    assert KeyMap[3].0 == "statementDate" && KeyMap[4].0 == "dueDate" && KeyMap[5].0 == "serviceAddress";
    assert KeyMap[6].0 == "lineItems" && KeyMap[7].0 == "usageCharts" && KeyMap[8].0 == "confidenceScore";
    assert KeyMap[9].0 == "confidenceReasoning" && KeyMap[10].0 == "verificationQuestions";
  }
}
