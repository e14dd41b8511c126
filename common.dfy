/** Shapes shared by both components: an optional value and a plain
    JavaScript object of string-valued properties. */
module Common {

  datatype Option<+T> = None | Some(value: T)

  /** No key occurs twice in an association list. */
  predicate DistinctKeys(o: seq<(string, string)>)
  {
    forall i, j :: 0 <= i < j < |o| ==> o[i].0 != o[j].0
  }

  /** A plain object such as `params`: its own enumerable properties in the
      order `Object.keys` lists them. Keys of an object are distinct. */
  type JsObject = o: seq<(string, string)> | DistinctKeys(o) witness []

  /** `o[key]`: the value stored under `key`, if the object has that key. */
  function Lookup(o: seq<(string, string)>, key: string): (r: Option<string>)
    ensures r.None? <==> forall i :: 0 <= i < |o| ==> o[i].0 != key
    ensures r.Some? ==> (key, r.value) in o
  {
    if |o| == 0 then None
    else if o[0].0 == key then Some(o[0].1)
    else Lookup(o[1..], key)
  }
}
