/**
 * JSON values as Python's `json` module hands them to the scripts: objects
 * become dicts that keep their insertion order, numbers become `int` or
 * `float` (modelled exactly, as `real`), `null` becomes `None`.
 */
module Json {
  import opened Wrappers

  datatype Json =
    | JNull
    | JBool(b: bool)
    | JInt(i: int)
    | JFloat(r: real)
    | JStr(s: string)
    | JArray(items: seq<Json>)
    | JObject(fields: Dict)

  /** One key/value entry of a dict. */
  datatype Pair = Pair(key: string, value: Json)

  /** A Python dict with string keys, entries in insertion order. */
  type Dict = seq<Pair>

  /** The keys of `d`, in insertion order. */
  function Keys(d: Dict): seq<string>
  {
    if d == [] then [] else [d[0].key] + Keys(d[1..])
  }

  predicate HasKey(d: Dict, k: string)
  {
    k in Keys(d)
  }

  /** `d.get(k)`: the value stored under `k`, if there is one. */
  function Get(d: Dict, k: string): (r: Option<Json>)
    ensures r.Some? <==> HasKey(d, k)
    ensures r.Some? ==> Pair(k, r.value) in d
  {
    if d == [] then None
    else if d[0].key == k then Some(d[0].value)
    else Get(d[1..], k)
  }

  /** `d.get(k, default)`: a stored value is returned even when it is `null`. */
  function Lookup(d: Dict, k: string, default: Json): (r: Json)
    ensures HasKey(d, k) ==> Pair(k, r) in d
    ensures !HasKey(d, k) ==> r == default
  {
    Get(d, k).GetOr(default)
  }

  /** `d.get(k, default)` is the stored value, whatever the default, or the default when `k` is missing. */
  lemma LookupEither(d: Dict, k: string, default: Json)
    ensures Lookup(d, k, default) == if HasKey(d, k) then Lookup(d, k, JNull) else default
  {
  }

  /**
   * `d[k] = v`: an existing key keeps its position and gets the new value,
   * a new key is appended.
   */
  function Set(d: Dict, k: string, v: Json): (r: Dict)
    ensures Get(r, k) == Some(v)
    ensures forall k' {:trigger Get(r, k')} :: k' != k ==> Get(r, k') == Get(d, k')
    ensures Keys(r) == if HasKey(d, k) then Keys(d) else Keys(d) + [k]
  {
    SetGet(d, k, v);
    SetKeys(d, k, v);
    Put(d, k, v)
  }

  /** The entries of `d` with `k` replaced in place, or appended when absent. */
  function Put(d: Dict, k: string, v: Json): Dict
  {
    if d == [] then [Pair(k, v)]
    else if d[0].key == k then [Pair(k, v)] + d[1..]
    else [d[0]] + Put(d[1..], k, v)
  }

  lemma {:induction false} SetGet(d: Dict, k: string, v: Json)
    ensures Get(Put(d, k, v), k) == Some(v)
    ensures forall k' {:trigger Get(Put(d, k, v), k')} :: k' != k ==> Get(Put(d, k, v), k') == Get(d, k')
  {
    var r := Put(d, k, v);
    if d != [] {
      if d[0].key == k {
        assert r[0] == Pair(k, v) && r[1..] == d[1..];
      } else {
        SetGet(d[1..], k, v);
        assert r[0] == d[0] && r[1..] == Put(d[1..], k, v);
      }
    }
  }

  lemma {:induction false} SetKeys(d: Dict, k: string, v: Json)
    ensures Keys(Put(d, k, v)) == if HasKey(d, k) then Keys(d) else Keys(d) + [k]
  {
    var r := Put(d, k, v);
    if d != [] {
      if d[0].key == k {
        assert r[0] == Pair(k, v) && r[1..] == d[1..];
      } else {
        SetKeys(d[1..], k, v);
        var rest := Put(d[1..], k, v);
        assert r[0] == d[0] && r[1..] == rest;
        assert Keys(r) == [d[0].key] + Keys(rest);
        assert HasKey(d, k) == HasKey(d[1..], k);
      }
    }
  }

  /** Every element is a dict, so `.get` works on each. */
  predicate AllObjects(data: seq<Json>)
  {
    forall i :: 0 <= i < |data| ==> data[i].JObject?
  }

  /** The dict of each element of `data`; an element that is not a dict reads as empty. */
  function FieldsOf(data: seq<Json>): (r: seq<Dict>)
    ensures |r| == |data|
    ensures forall i :: 0 <= i < |data| && data[i].JObject? ==> r[i] == data[i].fields
  {
    seq(|data|, i requires 0 <= i < |data| => if data[i].JObject? then data[i].fields else [])
  }

  /** Lists and dicts are not hashable: using one as a dict key raises `TypeError`. */
  predicate Hashable(j: Json)
  {
    !j.JArray? && !j.JObject?
  }

  /**
   * The dict key a value stands for: Python's `True == 1 == 1.0` makes
   * booleans and integral floats the same key as the integer.
   */
  function KeyOf(j: Json): (r: Json)
    ensures Hashable(j) ==> Hashable(r)
  {
    match j
    case JBool(b) => JInt(if b then 1 else 0)
    case JFloat(x) => if x == x.Floor as real then JInt(x.Floor) else j
    case _ => j
  }

  /** Python truthiness of a JSON value (`if x:`). */
  predicate Truthy(j: Json)
  {
    match j
    case JNull => false
    case JBool(b) => b
    case JInt(i) => i != 0
    case JFloat(r) => r != 0.0
    case JStr(s) => s != []
    case JArray(xs) => xs != []
    case JObject(fs) => fs != []
  }

  /** Truthiness of `d.get(k)`: a missing key reads as `None`. */
  predicate TruthyAt(d: Dict, k: string)
  {
    Truthy(Lookup(d, k, JNull))
  }

  /** Decimal digits of a natural number. */
  function NatToString(n: nat): (r: string)
    ensures r != [] && forall i :: 0 <= i < |r| ==> '0' <= r[i] <= '9'
  {
    var d := ['0' + (n % 10) as char];
    if n < 10 then d else NatToString(n / 10) + d
  }

  /**
   * How an f-string renders a value (`str(x)`): exact for `None`, booleans,
   * integers and strings; floats, lists and dicts get a fixed stand-in.
   */
  function Show(j: Json): string
  {
    match j
    case JNull => "None"
    case JBool(b) => if b then "True" else "False"
    case JInt(i) => if i < 0 then "-" + NatToString(-i) else NatToString(i)
    case JFloat(_) => "<float>"
    case JStr(s) => s
    case JArray(_) => "<list>"
    case JObject(_) => "<dict>"
  }
}
