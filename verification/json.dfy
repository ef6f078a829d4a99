/** The decoded JSON a provider returns, with the parts of JavaScript's
    object model the normaliser relies on: property lookup, own-key order,
    `typeof ... === 'object'`, `Array.isArray` and truthiness. */
module Json {
  import opened Wrappers
  import opened Text

  /** A JavaScript number. Finite values are exact reals (IEEE rounding is
      not modelled); `Infinite` and `NaN` are the IEEE specials that
      `parseFloat` can produce. */
  datatype Num = Finite(r: real) | Infinite(negative: bool) | NaN

  /** A decoded JSON value. Object fields keep their order, because the
      normaliser's results depend on which matching key comes first. */
  datatype Json =
    | Null
    | Bool(b: bool)
    | Number(n: Num)
    | Str(s: string)
    | Arr(items: seq<Json>)
    | Obj(fields: seq<(string, Json)>)

  /** JavaScript truthiness of a number: 0 and NaN are falsy. */
  predicate NumTruthy(n: Num) {
    match n
    case Finite(r) => r != 0.0
    case Infinite(_) => true
    case NaN => false
  }

  /** JavaScript truthiness: null, false, 0, NaN and "" are falsy; every
      array and object (even an empty one) is truthy. */
  predicate Truthy(v: Json) {
    match v
    case Null => false
    case Bool(b) => b
    case Number(n) => NumTruthy(n)
    case Str(s) => |s| > 0
    case Arr(_) => true
    case Obj(_) => true
  }

  /** Truthiness of a property read, where `undefined` is falsy. */
  predicate Present(o: Option<Json>) {
    o.Some? && Truthy(o.value)
  }

  /** `typeof v === 'object' && v !== null`: arrays and objects. */
  predicate IsObjectLike(v: Json) { v.Arr? || v.Obj? }

  /** The own enumerable properties, in `Object.keys` order. An array's own
      keys are its indices printed in decimal; primitives have none that the
      normaliser reads. */
  function Entries(v: Json): (es: seq<(string, Json)>)
    ensures v.Obj? ==> es == v.fields
    ensures !IsObjectLike(v) ==> es == []
    ensures v.Arr? ==> |es| == |v.items| && forall i :: 0 <= i < |es| ==> es[i] == (NatToString(i), v.items[i])
  {
    match v
    case Obj(fs) => fs
    case Arr(xs) => seq(|xs|, i requires 0 <= i < |xs| => (NatToString(i), xs[i]))
    case _ => []
  }

  /** The value of the first entry named `k`, if any. */
  function Lookup(es: seq<(string, Json)>, k: string): (o: Option<Json>)
    ensures o.Some? <==> exists i :: 0 <= i < |es| && es[i].0 == k
    ensures o.Some? ==> exists i :: 0 <= i < |es| && es[i] == (k, o.value) && forall j :: 0 <= j < i ==> es[j].0 != k
  {
    if |es| == 0 then None
    else if es[0].0 == k then Some(es[0].1)
    else
      var o := Lookup(es[1..], k);
      if o.Some? then
        ghost var i :| 0 <= i < |es| - 1 && es[1..][i] == (k, o.value) && forall j :: 0 <= j < i ==> es[1..][j].0 != k;
        assert es[i + 1] == (k, o.value);
        o
      else o
  }

  /** Property access `v[k]`; `None` is `undefined`. */
  function Get(v: Json, k: string): Option<Json> {
    Lookup(Entries(v), k)
  }

  /** `{...obj, k: x}` for an object: an existing key keeps its position
      and takes the new value; a new key is appended. */
  function SetField(fs: seq<(string, Json)>, k: string, x: Json): (r: seq<(string, Json)>)
    ensures Lookup(r, k) == Some(x)
    ensures forall k' :: k' != k ==> Lookup(r, k') == Lookup(fs, k')
    ensures (exists i :: 0 <= i < |fs| && fs[i].0 == k) ==> |r| == |fs|
  {
    if |fs| == 0 then [(k, x)]
    else if fs[0].0 == k then [(k, x)] + fs[1..]
    else [fs[0]] + SetField(fs[1..], k, x)
  }

  /** Property access on a two-field object literal. */
  lemma Lookup2(a: string, x: Json, b: string, y: Json, k: string)
    ensures Lookup([(a, x), (b, y)], k) == if k == a then Some(x) else if k == b then Some(y) else None
  {
    var es := [(a, x), (b, y)];
    assert es[1..] == [(b, y)];
    assert es[1..][1..] == [];
  }

  /** Property access on a three-field object literal. */
  lemma Lookup3(a: string, x: Json, b: string, y: Json, c: string, z: Json, k: string)
    ensures Lookup([(a, x), (b, y), (c, z)], k) ==
      if k == a then Some(x) else if k == b then Some(y) else if k == c then Some(z) else None
  {
    var es := [(a, x), (b, y), (c, z)];
    assert es[1..] == [(b, y), (c, z)];
    Lookup2(b, y, c, z, k);
  }

  /** Writing back the value a property already has changes nothing. */
  lemma {:induction false} SetFieldUnchanged(fs: seq<(string, Json)>, k: string, x: Json)
    requires Lookup(fs, k) == Some(x)
    ensures SetField(fs, k, x) == fs
  {
    if fs[0].0 != k {
      SetFieldUnchanged(fs[1..], k, x);
    }
  }

  /** Writing the same property twice is writing it once. */
  lemma {:induction false} SetFieldTwice(fs: seq<(string, Json)>, k: string, x: Json, y: Json)
    ensures SetField(SetField(fs, k, x), k, y) == SetField(fs, k, y)
  {
    if |fs| > 0 && fs[0].0 != k {
      SetFieldTwice(fs[1..], k, x, y);
    }
  }

  /** An array has no property whose name starts with something other
      than a digit: `[...].data` is `undefined`. */
  lemma ArrayHasNoNamedField(xs: seq<Json>, k: string)
    requires |k| > 0 && !IsDigit(k[0])
    ensures Get(Arr(xs), k).None?
  {
    var es := Entries(Arr(xs));
    forall i | 0 <= i < |es| ensures es[i].0 != k {
      assert IsDigit(es[i].0[0]);
    }
  }

  /** Only objects and arrays have properties the normaliser reads, and
      arrays only have index-named ones. */
  lemma NamedFieldMeansObject(v: Json, k: string)
    requires |k| > 0 && !IsDigit(k[0])
    ensures Get(v, k).Some? ==> v.Obj?
  {
    if v.Arr? { ArrayHasNoNamedField(v.items, k); }
  }

  /** Overwriting a present key keeps the keys and every other entry. */
  lemma UpdatePresent(m: map<string, Json>, k: string, v: Json)
    requires k in m
    ensures m[k := v].Keys == m.Keys
    ensures m[k := v] - {k} == m - {k}
  {
  }
}
