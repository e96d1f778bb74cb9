/**
  A parsed JSON document, as `JSON.parse` hands it to the engine.

  Numbers keep only what the engine ever asks of them: whether
  `Number.isInteger` holds. Object members keep their insertion order;
  `JSON.parse` gives every key of an object at most once, which the lemmas
  that need it state as `Records.DistinctKeys`.
*/
module JsonValue {
  import opened Records

  datatype Json =
    | JNull
    | JBool(b: bool)
    | JNum(isInt: bool)
    | JStr(s: string)
    | JArr(elems: seq<Json>)
    | JObj(fields: Record<Json>)

  /** JavaScript's `typeof` on a parsed value (`null` and arrays are "object"). */
  function TypeOf(v: Json): string
  {
    match v
    case JNull => "object"
    case JBool(_) => "boolean"
    case JNum(_) => "number"
    case JStr(_) => "string"
    case JArr(_) => "object"
    case JObj(_) => "object"
  }

  /** `typeof` of `a[0]`, which is "undefined" when the array is empty. */
  function FirstTypeOf(elems: seq<Json>): (t: string)
    ensures t == "undefined" <==> elems == []
  {
    if elems == [] then "undefined" else TypeOf(elems[0])
  }

  /**
    The members `Object.keys` visits on a parsed object: each key once, at
    its first position, with its last value, as `JSON.parse` assigns them.
  */
  function Members(v: Json): Record<Json>
    requires v.JObj?
  {
    PutAll([], v.fields)
  }

  /** Every visited member is one of the written ones, so it is smaller than the object. */
  lemma MemberWritten(v: Json, i: nat)
    requires v.JObj? && i < |Members(v)|
    ensures Members(v)[i] in v.fields
  {
    PutAllValues([], v.fields, i);
  }

  /** Without repeated keys the members are exactly the written ones, in order. */
  lemma MembersDistinct(v: Json)
    requires v.JObj? && DistinctKeys(v.fields)
    ensures Members(v) == v.fields
  {
    PutAllEmpty(v.fields);
  }
}
