/** Parsed JSON documents and the Python dicts and lists the report builders
    pass around (spec files, metrics and evidence JSON, trace items), with
    the few Python built-ins they apply to them: truthiness, dict.get,
    isinstance checks, iteration and str(). */
module Json {
  import opened Common
  import Tables

  datatype Value =
    | JNull
    | JBool(b: bool)
    | JInt(i: int)
    | JNum(x: real)
    | JStr(s: string)
    | JList(items: seq<Value>)
    | JObj(fields: Dict)

  /** A dict as its (key, value) pairs in insertion order. */
  type Dict = seq<(string, Value)>

  /** Python truthiness: None, False, 0, 0.0, "", [] and {} are false. */
  predicate Truthy(v: Value) {
    match v
    case JNull => false
    case JBool(b) => b
    case JInt(i) => i != 0
    case JNum(x) => x != 0.0
    case JStr(s) => s != []
    case JList(xs) => xs != []
    case JObj(fs) => fs != []
  }

  /** d.get(key): the value stored last under key (json.loads keeps the last
      of repeated keys; dicts built in code have distinct keys), None when
      the key is absent. */
  function Lookup(d: Dict, key: string): (r: Option<Value>)
    ensures r.None? <==> forall i :: 0 <= i < |d| ==> d[i].0 != key
    ensures r.Some? ==> exists i :: 0 <= i < |d| && d[i] == (key, r.value)
  {
    if d == [] then None
    else if d[|d| - 1].0 == key then Some(d[|d| - 1].1)
    else Lookup(d[..|d| - 1], key)
  }

  /** d.get(key, default) with a string default; None reads as a stored value. */
  function GetOr(d: Dict, key: string, default: Value): Value {
    match Lookup(d, key)
    case Some(v) => v
    case None => default
  }

  /** v.get(key) when v is a dict; None for any other value (callers test
      isinstance(v, dict) first). */
  function Get(v: Value, key: string): Option<Value> {
    if v.JObj? then Lookup(v.fields, key) else None
  }

  /** `d.get(key)` is truthy. */
  predicate HasTruthy(d: Dict, key: string) {
    Lookup(d, key).Some? && Truthy(Lookup(d, key).value)
  }

  /** The keys of the dict json.loads builds: a repeated key is kept once,
      at the place of its first occurrence. */
  function DictKeys(d: Dict): (ks: seq<string>)
    ensures Tables.NoDup(ks)
    ensures forall k :: k in ks <==> Lookup(d, k).Some?
  {
    var all := seq(|d|, i requires 0 <= i < |d| => d[i].0);
    Tables.DistinctSpec(all);
    assert forall k :: k in all <==> exists i :: 0 <= i < |d| && d[i].0 == k by {
      forall k ensures k in all <==> exists i :: 0 <= i < |d| && d[i].0 == k {
        if k in all {
          var i :| 0 <= i < |all| && all[i] == k;
        }
        if exists i :: 0 <= i < |d| && d[i].0 == k {
          var i :| 0 <= i < |d| && d[i].0 == k;
          assert all[i] == k;
        }
      }
    }
    Tables.Distinct(all)
  }

  /** `for it in v`: a list yields its items, a dict its keys (each once), a
      string its characters; any other value raises TypeError. */
  function Iterate(v: Value): (r: Result<seq<Value>>)
    ensures v.JList? ==> r == Ok(v.items)
    ensures v.JObj? ==> r.Ok? && |r.value| == |DictKeys(v.fields)|
                        && forall i :: 0 <= i < |r.value| ==> r.value[i] == JStr(DictKeys(v.fields)[i])
    ensures (v.JNull? || v.JBool? || v.JInt? || v.JNum?) <==> r.Err?
  {
    match v
    case JList(xs) => Ok(xs)
    case JObj(fs) =>
      var ks := DictKeys(fs);
      Ok(seq(|ks|, i requires 0 <= i < |ks| => JStr(ks[i])))
    case JStr(s) => Ok(seq(|s|, i requires 0 <= i < |s| => JStr([s[i]])))
    case _ => Err("TypeError: object is not iterable")
  }

  /** How str() renders the values whose Python rendering the model does not
      spell out (floats, lists and dicts); the builders take it as a parameter. */
  type Show = Value -> string

  /** str(v). */
  function PyStr(v: Value, show: Show): string {
    match v
    case JNull => "None"
    case JBool(b) => if b then "True" else "False"
    case JInt(i) => IntToString(i)
    case JStr(s) => s
    case _ => show(v)
  }

  /** int(x) truncates a float toward zero. */
  function Trunc(x: real): int {
    if x >= 0.0 then x.Floor else 0 - (0.0 - x).Floor
  }

  /** int(v): ints, booleans, floats (truncated) and strings holding an
      optionally signed run of ASCII digits between whitespace; anything
      else raises. */
  function PyInt(v: Value): Result<int> {
    match v
    case JInt(i) => Ok(i)
    case JBool(b) => Ok(if b then 1 else 0)
    case JNum(x) => Ok(Trunc(x))
    case JStr(s) =>
      var t := Strip(s);
      if IsDigits(t) then Ok(DigitsValue(t))
      else if |t| >= 2 && t[0] == '-' && IsDigits(t[1..]) then Ok(0 - DigitsValue(t[1..]))
      else if |t| >= 2 && t[0] == '+' && IsDigits(t[1..]) then Ok(DigitsValue(t[1..]))
      else Err("ValueError: invalid literal for int()")
    case _ => Err("TypeError: int() argument")
  }

  /** (v or "").strip() for an optional dict entry; a truthy non-string
      raises AttributeError. */
  function StrippedOr(v: Option<Value>): Result<string> {
    if v.None? || !Truthy(v.value) then Ok("")
    else if v.value.JStr? then Ok(Strip(v.value.s))
    else Err("AttributeError: object has no attribute 'strip'")
  }
}
