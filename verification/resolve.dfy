/** Finding the canonical fields in the provider's object: each field is
    looked up under its canonical name and then under its alternatives,
    matching raw keys case-insensitively and ignoring underscores; then
    schema properties that were not filled that way are copied through
    under their exact names. */
module Resolve {
  import opened Wrappers
  import opened Text
  import opened Json
  import opened Schema

  /** Entry `i` is the first whose key matches `name` after normalisation. */
  predicate FirstNormMatch(es: seq<(string, Json)>, name: string, i: int) {
    && 0 <= i < |es|
    && Norm(es[i].0) == Norm(name)
    && forall j :: 0 <= j < i ==> Norm(es[j].0) != Norm(name)
  }

  /** `Object.keys(obj).find(k => norm(k) === norm(name))`. */
  function FindKey(es: seq<(string, Json)>, name: string): (o: Option<string>)
    ensures o.None? <==> forall i :: 0 <= i < |es| ==> Norm(es[i].0) != Norm(name)
    ensures o.Some? ==> exists i :: FirstNormMatch(es, name, i) && es[i].0 == o.value
  {
    if |es| == 0 then None
    else if Norm(es[0].0) == Norm(name) then
      assert FirstNormMatch(es, name, 0);
      Some(es[0].0)
    else
      var o := FindKey(es[1..], name);
      if o.Some? then
        ghost var i :| FirstNormMatch(es[1..], name, i) && es[1..][i].0 == o.value;
        assert FirstNormMatch(es, name, i + 1);
        o
      else o
  }

  /** What one name contributes to `findValue`: the key found, if it is
      not the empty string, read back from the object. */
  function CandidateValue(es: seq<(string, Json)>, name: string): (o: Option<Json>)
    ensures o.Some? ==> exists i :: FirstNormMatch(es, name, i) && es[i].1 == o.value
  {
    match FindKey(es, name)
    case None => None
    case Some(k) =>
      if |k| == 0 then None
      else
        ghost var i :| FirstNormMatch(es, name, i) && es[i].0 == k;
        var o := Lookup(es, k);
        assert o == Some(es[i].1) by {
          ghost var i' :| 0 <= i' < |es| && es[i'] == (k, o.value) && forall j :: 0 <= j < i' ==> es[j].0 != k;
          assert !(i' < i) && !(i < i');
        }
        o
  }

  /** For a name with a non-empty normal form the emptiness test never
      fires, so a name yields the value of its first normalised match
      exactly when there is one. */
  lemma CandidateValueMatches(es: seq<(string, Json)>, name: string)
    requires |Norm(name)| > 0
    ensures CandidateValue(es, name).None? <==> forall i :: 0 <= i < |es| ==> Norm(es[i].0) != Norm(name)
    ensures forall i :: FirstNormMatch(es, name, i) ==> CandidateValue(es, name) == Some(es[i].1)
  {
    var o := FindKey(es, name);
    if o.Some? {
      var i :| FirstNormMatch(es, name, i) && es[i].0 == o.value;
      assert |Norm(es[i].0)| <= |es[i].0|;
      forall i' | FirstNormMatch(es, name, i') ensures CandidateValue(es, name) == Some(es[i'].1) {
        assert !(i' < i) && !(i < i');
      }
    }
  }

  /** Name `j` is the first of `names` that yields a value. */
  predicate FirstYielding(es: seq<(string, Json)>, names: seq<string>, j: int) {
    && 0 <= j < |names|
    && CandidateValue(es, names[j]).Some?
    && forall k :: 0 <= k < j ==> CandidateValue(es, names[k]).None?
  }

  /** `findValue(obj, primaryKey, alternatives)`: the first name in `names`
      that yields a value, tried in order. */
  function FindValue(es: seq<(string, Json)>, names: seq<string>): (o: Option<Json>)
    ensures o.None? <==> forall j :: 0 <= j < |names| ==> CandidateValue(es, names[j]).None?
    ensures o.Some? ==> exists j :: FirstYielding(es, names, j) && CandidateValue(es, names[j]) == o
  {
    if |names| == 0 then None
    else match CandidateValue(es, names[0])
      case Some(v) =>
        assert FirstYielding(es, names, 0);
        Some(v)
      case None =>
        var o := FindValue(es, names[1..]);
        SkipSilentName(es, names);
        o
  }

  /** When the first name yields nothing, the search over the rest is the
      search over all. */
  lemma SkipSilentName(es: seq<(string, Json)>, names: seq<string>)
    requires |names| > 0 && CandidateValue(es, names[0]).None?
    ensures forall j :: FirstYielding(es, names[1..], j) ==> FirstYielding(es, names, j + 1)
    ensures (forall j :: 0 <= j < |names| - 1 ==> CandidateValue(es, names[1..][j]).None?)
      ==> forall j :: 0 <= j < |names| ==> CandidateValue(es, names[j]).None?
  {
    forall j | FirstYielding(es, names[1..], j) ensures FirstYielding(es, names, j + 1) {
      SkipSilentNameAt(es, names, j);
    }
    ShiftAllNone(n => CandidateValue(es, n), names);
  }

  /** A name that yields nothing in front of names that yield nothing. */
  lemma ShiftAllNone(cv: string -> Option<Json>, names: seq<string>)
    requires |names| > 0 && cv(names[0]).None?
    ensures (forall j :: 0 <= j < |names| - 1 ==> cv(names[1..][j]).None?)
      ==> forall j :: 0 <= j < |names| ==> cv(names[j]).None?
  {
    if forall j :: 0 <= j < |names| - 1 ==> cv(names[1..][j]).None? {
      forall j | 0 <= j < |names| ensures cv(names[j]).None? {
        if j > 0 { assert names[j] == names[1..][j - 1]; }
      }
    }
  }

  lemma SkipSilentNameAt(es: seq<(string, Json)>, names: seq<string>, j: nat)
    requires |names| > 0 && CandidateValue(es, names[0]).None?
    requires FirstYielding(es, names[1..], j)
    ensures FirstYielding(es, names, j + 1)
  {
    ShiftFirstSome(n => CandidateValue(es, n), names, j);
  }

  /** Putting a name that yields nothing in front moves the first yielding
      name one place on. */
  lemma ShiftFirstSome(cv: string -> Option<Json>, names: seq<string>, j: nat)
    requires |names| > 0 && cv(names[0]).None?
    requires j < |names| - 1 && cv(names[1..][j]).Some?
    requires forall k :: 0 <= k < j ==> cv(names[1..][k]).None?
    ensures cv(names[j + 1]).Some? && forall k :: 0 <= k < j + 1 ==> cv(names[k]).None?
  {
    var rest := names[1..];
    assert names[j + 1] == rest[j];
    forall k | 0 <= k < j + 1 ensures cv(names[k]).None? {
      if k > 0 {
        assert names[k] == rest[k - 1];
      }
    }
  }

  /** The canonical names of the table, as a set. */
  function CanonicalNames(): set<string> {
    set i | 0 <= i < |KeyMap| :: KeyMap[i].0
  }

  /** The table index of a canonical name. */
  function IndexOf(k: string): (i: nat)
    requires k in CanonicalNames()
    ensures i < |KeyMap| && KeyMap[i].0 == k
  {
    var i :| 0 <= i < |KeyMap| && KeyMap[i].0 == k; i
  }

  /** The first loop: every canonical field for which some name yields a
      value is set to that value. The canonical names are distinct, so the
      order of the loop does not matter. */
  function ResolveFields(es: seq<(string, Json)>): (r: map<string, Json>)
    ensures r.Keys <= CanonicalNames()
    ensures forall i :: 0 <= i < |KeyMap| ==>
      (KeyMap[i].0 in r <==> FindValue(es, Candidates(i)).Some?)
    ensures forall i :: 0 <= i < |KeyMap| && KeyMap[i].0 in r ==> r[KeyMap[i].0] == FindValue(es, Candidates(i)).value
  {
    var r := FoundFields(es);
    assert forall i :: 0 <= i < |KeyMap| ==> IndexOf(KeyMap[i].0) == i by {
      forall i | 0 <= i < |KeyMap| ensures IndexOf(KeyMap[i].0) == i {
        CanonicalNamesDistinct(i, IndexOf(KeyMap[i].0));
      }
    }
    r
  }

  /** Each canonical name whose names find a value, with that value. */
  function FoundFields(es: seq<(string, Json)>): map<string, Json> {
    map k | k in CanonicalNames() && FindValue(es, Candidates(IndexOf(k))).Some? :: FindValue(es, Candidates(IndexOf(k))).value
  }

  lemma CanonicalNamesDistinct(i: nat, j: nat)
    requires i < |KeyMap| && j < |KeyMap|
    ensures KeyMap[i].0 == KeyMap[j].0 ==> i == j
  {
    if KeyMap[i].0 == KeyMap[j].0 {
      CanonicalNameCode(i);
      CanonicalNameCode(j);
      NameCodesDistinct(i, j);
    }
  }

  /** The second loop: a raw key not already filled whose exact name is a
      schema property is copied as it stands. A key appearing again later
      is already filled by then, so each key takes its first value. */
  function CopyThrough(es: seq<(string, Json)>, acc: map<string, Json>): (r: map<string, Json>)
    ensures forall k :: k in r <==> k in acc || (k in SchemaKeys && Lookup(es, k).Some?)
    ensures forall k :: k in acc ==> r[k] == acc[k]
    ensures forall k :: k in r && k !in acc ==> Lookup(es, k) == Some(r[k])
    decreases |es|
  {
    if |es| == 0 then acc
    else
      var acc' := if es[0].0 !in acc && es[0].0 in SchemaKeys then acc[es[0].0 := es[0].1] else acc;
      CopyThrough(es[1..], acc')
  }

  /** Both loops, over the entries of the source object. */
  function Fields(es: seq<(string, Json)>): map<string, Json> {
    CopyThrough(es, ResolveFields(es))
  }

  // ---- properties of key resolution ----

  /** A canonical name present literally is always filled by the first
      loop. */
  lemma LiteralCanonicalResolved(es: seq<(string, Json)>, t: nat)
    requires t < |KeyMap|
    ensures Lookup(es, KeyMap[t].0).Some? ==> KeyMap[t].0 in ResolveFields(es)
  {
    var k := KeyMap[t].0;
    if Lookup(es, k).Some? {
      CandidatesStartWithLetter(t, 0);
      NormHead(k);
      CandidateValueMatches(es, k);
      var i :| 0 <= i < |es| && es[i].0 == k;
      assert Norm(es[i].0) == Norm(Candidates(t)[0]);
      assert CandidateValue(es, Candidates(t)[0]).Some?;
    }
  }

  /** So copy-through can only ever add the two service-period dates:
      every other schema property is a canonical name. */
  lemma CopyThroughAddsOnlyServicePeriod(es: seq<(string, Json)>, k: string)
    requires k in Fields(es) && k !in ResolveFields(es)
    ensures k == "servicePeriodStart" || k == "servicePeriodEnd"
  {
    forall t | 0 <= t < |KeyMap| ensures KeyMap[t].0 != k {
      LiteralCanonicalResolved(es, t);
    }
    SchemaKeysOutsideTable(k);
  }

  /** Every key the two loops produce is a schema property: raw keys
      outside the schema never reach the result. */
  lemma FieldsAreSchemaKeys(es: seq<(string, Json)>, k: string)
    requires k in Fields(es)
    ensures k in SchemaKeys
  {
    if k in ResolveFields(es) {
      CanonicalNamesAreSchemaKeys(IndexOf(k));
    }
  }

  /** Two sources that differ only in the spelling of their keys (upper or
      lower case, underscores), entry for entry, resolve the canonical
      fields identically. */
  lemma {:induction false} CandidateValueRespell(es: seq<(string, Json)>, es': seq<(string, Json)>, name: string)
    requires |es| == |es'|
    requires forall i :: 0 <= i < |es| ==> Norm(es[i].0) == Norm(es'[i].0) && es[i].1 == es'[i].1
    requires |Norm(name)| > 0
    ensures CandidateValue(es, name) == CandidateValue(es', name)
  {
    CandidateValueMatches(es, name);
    CandidateValueMatches(es', name);
    if CandidateValue(es, name).Some? {
      var i :| FirstNormMatch(es, name, i) && es[i].1 == CandidateValue(es, name).value;
      assert FirstNormMatch(es', name, i);
    }
  }

  lemma ResolveFieldsRespell(es: seq<(string, Json)>, es': seq<(string, Json)>)
    requires |es| == |es'|
    requires forall i :: 0 <= i < |es| ==> Norm(es[i].0) == Norm(es'[i].0) && es[i].1 == es'[i].1
    ensures ResolveFields(es) == ResolveFields(es')
  {
    forall t | 0 <= t < |KeyMap| ensures FindValue(es, Candidates(t)) == FindValue(es', Candidates(t)) {
      CandidatesRespell(es, es', t);
    }
    ResolveFieldsAgree(es, es');
  }

  lemma CandidatesRespell(es: seq<(string, Json)>, es': seq<(string, Json)>, t: nat)
    requires |es| == |es'| && t < |KeyMap|
    requires forall i :: 0 <= i < |es| ==> Norm(es[i].0) == Norm(es'[i].0) && es[i].1 == es'[i].1
    ensures FindValue(es, Candidates(t)) == FindValue(es', Candidates(t))
  {
    forall j | 0 <= j < |Candidates(t)|
      ensures CandidateValue(es, Candidates(t)[j]) == CandidateValue(es', Candidates(t)[j])
    {
      CandidatesStartWithLetter(t, j);
      NormHead(Candidates(t)[j]);
      CandidateValueRespell(es, es', Candidates(t)[j]);
    }
    FindValueRespell(es, es', Candidates(t));
  }

  /** The first loop depends on the entries only through what each table
      entry's names find. */
  lemma ResolveFieldsAgree(es: seq<(string, Json)>, es': seq<(string, Json)>)
    requires forall t :: 0 <= t < |KeyMap| ==> FindValue(es, Candidates(t)) == FindValue(es', Candidates(t))
    ensures ResolveFields(es) == ResolveFields(es')
  {
    FoundFieldsAgree(es, es');
  }

  lemma FoundFieldsAgree(es: seq<(string, Json)>, es': seq<(string, Json)>)
    requires forall t :: 0 <= t < |KeyMap| ==> FindValue(es, Candidates(t)) == FindValue(es', Candidates(t))
    ensures FoundFields(es) == FoundFields(es')
  {
    forall k | k in CanonicalNames()
      ensures FindValue(es, Candidates(IndexOf(k))) == FindValue(es', Candidates(IndexOf(k)))
    {
    }
  }

  lemma FindValueRespell(es: seq<(string, Json)>, es': seq<(string, Json)>, names: seq<string>)
    requires forall j :: 0 <= j < |names| ==> CandidateValue(es, names[j]) == CandidateValue(es', names[j])
    ensures FindValue(es, names) == FindValue(es', names)
  {
    var o, o' := FindValue(es, names), FindValue(es', names);
    if o.Some? && o'.Some? {
      var j :| FirstYielding(es, names, j) && CandidateValue(es, names[j]) == o;
      var k :| FirstYielding(es', names, k) && CandidateValue(es', names[k]) == o';
      assert !(j < k) && !(k < j);
    }
  }

  /** The entries of an array are named by printed indices, which match no
      table name and no schema property: an array source yields nothing. */
  lemma ArrayEntriesYieldNothing(xs: seq<Json>)
    ensures Fields(Entries(Arr(xs))) == map[]
  {
    var es := Entries(Arr(xs));
    forall t, j | 0 <= t < |KeyMap| && 0 <= j < |Candidates(t)|
      ensures CandidateValue(es, Candidates(t)[j]).None?
    {
      IndexNamesMatchNoCandidate(xs, t, j);
    }
    IndexNamesOutsideSchema(xs);
  }

  lemma IndexNamesMatchNoCandidate(xs: seq<Json>, t: nat, j: nat)
    requires t < |KeyMap| && j < |Candidates(t)|
    ensures CandidateValue(Entries(Arr(xs)), Candidates(t)[j]).None?
  {
    var es := Entries(Arr(xs));
    var name := Candidates(t)[j];
    CandidatesStartWithLetter(t, j);
    NormHead(name);
    CandidateValueMatches(es, name);
    forall i | 0 <= i < |es| ensures Norm(es[i].0) != Norm(name) {
      NormOfDigits(NatToString(i));
      assert IsDigit(Norm(es[i].0)[0]);
      assert !IsDigit(LowerChar(name[0]));
    }
  }

  lemma IndexNamesOutsideSchema(xs: seq<Json>)
    ensures forall i :: 0 <= i < |xs| ==> NatToString(i) !in SchemaKeys
  {
    forall i | 0 <= i < |xs| ensures NatToString(i) !in SchemaKeys {
      assert IsDigit(NatToString(i)[0]);
      assert forall k :: 0 <= k < |SchemaKeys| ==> !IsDigit(SchemaKeys[k][0]);
    }
  }
}
