/**
 * JSON values as the handlers exchange them, Python truthiness and `str()`
 * of the scalar ones, and `json.dumps`/`json.loads` as an abstract codec.
 */
module Json {
  import opened Wrappers
  import opened Bytes
  import opened PyText

  /** A JSON document as `json.loads` returns it (floats are not modelled). */
  datatype Json =
    | JNull
    | JBool(b: bool)
    | JInt(i: int)
    | JStr(s: string)
    | JArr(items: seq<Json>)
    | JObj(fields: seq<(string, Json)>)

  /** Python truthiness of the value `json.loads` produces. */
  predicate Truthy(j: Json) {
    match j
    case JNull => false
    case JBool(b) => b
    case JInt(i) => i != 0
    case JStr(s) => s != ""
    case JArr(items) => items != []
    case JObj(fields) => fields != []
  }

  /** A single-valued field of a gateway callback: `None`, a bool, an int or a str. */
  datatype Scalar = SNull | SBool(b: bool) | SInt(i: int) | SStr(s: string)

  predicate ScalarTruthy(v: Scalar) {
    match v
    case SNull => false
    case SBool(b) => b
    case SInt(i) => i != 0
    case SStr(s) => s != ""
  }

  /** `str(v)`: an int in its plain decimal form, and Python's spellings of `None`, `True` and `False`. */
  function ScalarStr(v: Scalar): (r: string)
    ensures v.SStr? ==> r == v.s
    ensures v.SInt? ==> ParseInt(r) == Some(v.i) && Plain(r)
    ensures v.SNull? ==> r == "None"
    ensures v.SBool? ==> r == (if v.b then "True" else "False")
  {
    match v
    case SNull => "None"
    case SBool(b) => if b then "True" else "False"
    case SInt(i) => ParseIntRoundTrip(i); IntToString(i)
    case SStr(s) => s
  }

  /**
   * `int(v)`: an int is itself, a bool is 0 or 1, a str is parsed, and
   * `None` raises `TypeError`; `None` here stands for the exception.
   */
  function ScalarInt(v: Scalar): (r: Option<int>)
    ensures v.SInt? ==> r == Some(v.i)
    ensures v.SNull? ==> r.None?
    ensures v.SStr? ==> r == ParseInt(v.s)
  {
    match v
    case SNull => None
    case SBool(b) => Some(if b then 1 else 0)
    case SInt(i) => Some(i)
    case SStr(s) => ParseInt(s)
  }

  /**
   * `json.dumps(v, separators=(",", ":"))` and `json.loads(data)` for UTF-8
   * `data`. The serialiser itself is not modelled.
   */
  datatype Codec = Codec(dumps: Json -> string, loads: seq<byte> -> Option<Json>)

  /** The one law a JSON codec obeys: parsing the encoded text gives the value back. */
  ghost predicate Lawful(c: Codec) {
    forall j :: c.loads(Utf8Encode(c.dumps(j))) == Some(j)
  }

  /** A lawful codec never gives two values the same text. */
  lemma DumpsInjective(c: Codec, j1: Json, j2: Json)
    requires Lawful(c)
    requires c.dumps(j1) == c.dumps(j2)
    ensures j1 == j2
  {
    assert c.loads(Utf8Encode(c.dumps(j1))) == Some(j1);
    assert c.loads(Utf8Encode(c.dumps(j2))) == Some(j2);
  }

  /** `d.get(k)` on a JSON object; any other value has no fields. */
  function Field(j: Json, k: string): (r: Option<Json>)
    ensures j.JObj? && r.Some? ==> (k, r.value) in j.fields
    ensures j.JObj? && r.None? ==> forall i :: 0 <= i < |j.fields| ==> j.fields[i].0 != k
    ensures !j.JObj? ==> r.None?
  {
    match j
    case JObj(fields) => LastField(fields, k)
    case _ => None
  }

  /**
   * The value `json.loads` keeps for key `k` in an object's entries: a
   * repeated key leaves the value of its last occurrence.
   */
  function LastField(fields: seq<(string, Json)>, k: string): (r: Option<Json>)
    ensures r.Some? ==> (k, r.value) in fields
    ensures r.Some? ==>
      exists i :: 0 <= i < |fields| && fields[i] == (k, r.value) && forall j :: i < j < |fields| ==> fields[j].0 != k
    ensures r.None? ==> forall i :: 0 <= i < |fields| ==> fields[i].0 != k
  {
    if |fields| == 0 then None
    else
      var n := |fields| - 1;
      if fields[n].0 == k then Some(fields[n].1)
      else
        var r := LastField(fields[..n], k);
        assert r.Some? ==> fields[..n] <= fields;
        r
  }
}
