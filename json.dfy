/** Parsed JSON payloads, seen only through what the dashboard does with
    them: String(v) when a value is displayed, Boolean(v) when it is used as a condition,
    and the own enumerable properties of an object in for...in order.
    JSON.parse itself is not modelled. */
module JsonValue {
  import opened Basics

  /** One JSON value: text is String(v), truthy is Boolean(v).
      convertThrows says that converting v to a primitive throws a
      TypeError, so that String(v), a template literal, `v + s` and
      new Date(v) all throw; text is then unused. JSON.parse makes such a
      value from an object with an own toString field (its value is not
      callable, and the inherited valueOf gives back the object itself)
      and from an array holding one. */
  datatype Value = Value(text: string, truthy: bool, convertThrows: bool)

  /** A parsed payload. Arrays are objects whose keys are the indices.
      JSON.parse keeps the last of repeated keys, so the fields of a
      parsed object have distinct keys; the datatype does not demand it.
      text is String of the whole object, and textThrows says whether
      that conversion throws. A primitive's conversion never throws. */
  datatype Json =
    | Object(fields: seq<(string, Value)>, text: string, textThrows: bool)
    | Null
    | Primitive(text: string)

  /** obj[key] for an object given as its fields in enumeration order:
      the value of the first field with that key, or undefined. */
  function Lookup(fields: seq<(string, Value)>, key: string): (r: Option<Value>)
    ensures r.None? <==> forall i :: 0 <= i < |fields| ==> fields[i].0 != key
    ensures r.Some? ==> (key, r.value) in fields
    decreases |fields|
  {
    if |fields| == 0 then None
    else if fields[0].0 == key then Some(fields[0].1)
    else
      var r := Lookup(fields[1..], key);
      assert forall i :: 1 <= i < |fields| ==> fields[i] == fields[1..][i - 1];
      r
  }
}
