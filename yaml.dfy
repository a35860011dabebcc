/** The tree a YAML settings file loads into (`Map<String, Object>` of strings, integers,
    `ArrayList`s and nested maps). A map is kept as its entries in iteration order. */
module Yaml {
  import opened Wrappers
  import opened Text

  datatype Value =
    | VNull
    | VStr(str: string)
    | VInt(number: int)
    | VList(items: seq<Value>)
    | VMap(entries: seq<(JString, Value)>)

  type Entries = seq<(JString, Value)>

  /** `map.get(key)`: the value bound to `key`, or `null` when there is none. */
  function Get(entries: Entries, key: string): (v: Value)
    ensures v != VNull ==> exists i :: 0 <= i < |entries| && entries[i] == (Some(key), v)
    ensures (forall i :: 0 <= i < |entries| ==> entries[i].0 != Some(key)) ==> v == VNull
  {
    if entries == [] then VNull
    else if entries[0].0 == Some(key) then entries[0].1
    else Get(entries[1..], key)
  }

  lemma {:induction false} GetFirst(entries: Entries, i: nat, key: string)
    requires i < |entries| && entries[i].0 == Some(key)
    requires forall j :: 0 <= j < i ==> entries[j].0 != Some(key)
    ensures Get(entries, key) == entries[i].1
  {
    if i > 0 {
      GetFirst(entries[1..], i - 1, key);
    }
  }

  /** `(String) value`: a string or `null` passes, anything else throws. */
  function AsString(v: Value): (r: Result<JString, Error>)
    ensures r.Success? <==> v.VNull? || v.VStr?
    ensures r == Success(None) <==> v.VNull?
    ensures r.Failure? ==> r.error == ClassCast
  {
    match v
    case VNull => Success(None)
    case VStr(s) => Success(Some(s))
    case _ => Failure(ClassCast)
  }

  /** The value a possibly-null string is written as. */
  function FromString(s: JString): (v: Value)
    ensures AsString(v) == Success(s)
  {
    match s
    case None => VNull
    case Some(t) => VStr(t)
  }
}
