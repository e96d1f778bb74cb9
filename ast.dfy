/**
  The shared schema model and its inference (lib/engine/ast.ts).

  `Infer` and `Merge` are the specification: `InferSchema` and
  `MergeSchemas` are the loops of the source, proved to compute them.
*/
module Ast {
  import opened Wrappers
  import opened JsonValue
  import opened Records
  import opened Text

  datatype Kind = KString | KNumber | KBoolean | KNull | KAny

  datatype Schema =
    | Prim(kind: Kind)
    | SArray(items: Schema)
    | SObject(properties: Record<Schema>, required: set<string>)

  /** Only this many leading elements of an array are inspected. */
  const SampleSize: nat := 50

  const Any: Schema := Prim(KAny)

  /** The `type` tag of a schema node. */
  function TypeTag(s: Schema): string
  {
    match s
    case Prim(KString) => "string"
    case Prim(KNumber) => "number"
    case Prim(KBoolean) => "boolean"
    case Prim(KNull) => "null"
    case Prim(KAny) => "any"
    case SArray(_) => "array"
    case SObject(_, _) => "object"
  }

  /** `typeof v === "object" && v !== null && !Array.isArray(v)`. */
  function IsPlainObject(v: Json): (b: bool)
    ensures b <==> v.JObj?
  {
    TypeOf(v) == "object" && v != JNull && !v.JArr?
  }

  /**
    The well-formedness every schema the engine builds enjoys: the
    properties of an object have distinct keys, and `required` names only
    keys that are present.
  */
  predicate WellFormed(s: Schema)
  {
    match s
    case Prim(_) => true
    case SArray(items) => WellFormed(items)
    case SObject(props, req) =>
      && DistinctKeys(props)
      && req <= KeySet(props)
      && forall i :: 0 <= i < |props| ==> WellFormed(props[i].1)
  }

  /*
   * Merging (mergeSchemas)
   */

  /** `new Set([...xs])`: first occurrences, in order. */
  function Dedup(xs: seq<string>): (d: seq<string>)
    ensures forall k :: k in d <==> k in xs
    ensures forall i, j :: 0 <= i < j < |d| ==> d[i] != d[j]
    ensures (forall i, j :: 0 <= i < j < |xs| ==> xs[i] != xs[j]) ==> d == xs
  {
    if xs == [] then []
    else
      var d := Dedup(xs[..|xs| - 1]);
      assert xs == xs[..|xs| - 1] + [xs[|xs| - 1]];
      if xs[|xs| - 1] in d then d else d + [xs[|xs| - 1]]
  }

  /** The keys of both operands, those of the left one first. */
  function UnionKeys(a: Record<Schema>, b: Record<Schema>): (keys: seq<string>)
    ensures forall k :: k in keys <==> k in KeySet(a) || k in KeySet(b)
    ensures forall i, j :: 0 <= i < j < |keys| ==> keys[i] != keys[j]
  {
    Dedup(Keys(a) + Keys(b))
  }

  function Merge(a: Schema, b: Schema): Schema
    decreases a, 1
  {
    if a == Any then b
    else if b == Any then a
    else if TypeTag(a) != TypeTag(b) then Any
    else if a.SArray? && b.SArray? then SArray(Merge(a.items, b.items))
    else if a.SObject? && b.SObject? then SObject(MergedProperties(a, b), MergedRequired(a, b))
    else a
  }

  /** The merged schema of one key of two object schemas (`aVal`, `bVal`). */
  function MergedValue(a: Schema, b: Schema, key: string): Schema
    requires a.SObject? && b.SObject?
    requires key in KeySet(a.properties) || key in KeySet(b.properties)
    decreases a, 0, 0
  {
    var ia := IndexOf(a.properties, key);
    var ib := IndexOf(b.properties, key);
    if ia >= 0 && ib >= 0 then Merge(a.properties[ia].1, b.properties[ib].1)
    else if ia >= 0 then a.properties[ia].1
    else b.properties[ib].1
  }

  function MergedProperties(a: Schema, b: Schema): Record<Schema>
    requires a.SObject? && b.SObject?
    decreases a, 0, 1
  {
    var keys := UnionKeys(a.properties, b.properties);
    seq(|keys|, i requires 0 <= i < |keys| => (keys[i], MergedValue(a, b, keys[i])))
  }

  function MergedRequired(a: Schema, b: Schema): set<string>
    requires a.SObject? && b.SObject?
  {
    set k | k in a.required && k in b.required && k in KeySet(a.properties) && k in KeySet(b.properties)
  }

  method MergeSchemas(a: Schema, b: Schema) returns (r: Schema)
    ensures r == Merge(a, b)
    decreases a, 1
  {
    if a == Any { return b; }
    if b == Any { return a; }
    if TypeTag(a) != TypeTag(b) { return Any; }
    if a.SArray? && b.SArray? {
      var items := MergeSchemas(a.items, b.items);
      return SArray(items);
    }
    if a.SObject? && b.SObject? {
      r := MergeObjectSchemas(a, b);
      return;
    }
    return a;
  }

  lemma MergeStep(a: Schema, b: Schema, i: nat, props: Record<Schema>, v: Schema)
    requires a.SObject? && b.SObject?
    requires i < |UnionKeys(a.properties, b.properties)|
    requires props == MergedProperties(a, b)[..i]
    requires v == MergedValue(a, b, UnionKeys(a.properties, b.properties)[i])
    ensures Put(props, UnionKeys(a.properties, b.properties)[i], v) == MergedProperties(a, b)[..i + 1]
  {
    var keys := UnionKeys(a.properties, b.properties);
    var spec := MergedProperties(a, b);
    assert keys[i] !in KeySet(props) by {
      assert Keys(props) == keys[..i];
    }
    assert spec[..i + 1] == props + [(keys[i], v)] by {
      TakeSnoc(spec, i);
    }
  }

  lemma RequiredStep(a: Schema, b: Schema, i: nat, before: set<string>, after: set<string>)
    requires a.SObject? && b.SObject?
    requires i < |UnionKeys(a.properties, b.properties)|
    requires before == set k | k in UnionKeys(a.properties, b.properties)[..i] && k in MergedRequired(a, b)
    requires var key := UnionKeys(a.properties, b.properties)[i];
      after == if key in MergedRequired(a, b) then before + {key} else before
    ensures after == set k | k in UnionKeys(a.properties, b.properties)[..i + 1] && k in MergedRequired(a, b)
  {
    var keys := UnionKeys(a.properties, b.properties);
    assert keys[..i + 1] == keys[..i] + [keys[i]];
  }

  /** One pass of the merge loop: the entry of the `i`-th key, and the key when both sides require it. */
  lemma MergeLoopStep(a: Schema, b: Schema, i: nat, props: Record<Schema>, required: set<string>, v: Schema, both: bool)
    requires a.SObject? && b.SObject?
    requires i < |UnionKeys(a.properties, b.properties)|
    requires props == MergedProperties(a, b)[..i]
    requires required == set k | k in UnionKeys(a.properties, b.properties)[..i] && k in MergedRequired(a, b)
    requires var key := UnionKeys(a.properties, b.properties)[i];
      && v == MergedValue(a, b, key)
      && both == (key in KeySet(a.properties) && key in KeySet(b.properties) && key in a.required && key in b.required)
    ensures Put(props, UnionKeys(a.properties, b.properties)[i], v) == MergedProperties(a, b)[..i + 1]
    ensures var key := UnionKeys(a.properties, b.properties)[i];
      (if both then required + {key} else required) ==
        set k | k in UnionKeys(a.properties, b.properties)[..i + 1] && k in MergedRequired(a, b)
  {
    var key := UnionKeys(a.properties, b.properties)[i];
    MergeStep(a, b, i, props, v);
    RequiredStep(a, b, i, required, if both then required + {key} else required);
  }

  /** The object branch of `mergeSchemas`: one pass over the union of the keys. */
  method MergeObjectSchemas(a: Schema, b: Schema) returns (r: Schema)
    requires a.SObject? && b.SObject?
    ensures r == SObject(MergedProperties(a, b), MergedRequired(a, b))
    decreases a, 0
  {
    var props: Record<Schema> := [];
    var required: set<string> := {};
    var keys := UnionKeys(a.properties, b.properties);
    for i := 0 to |keys|
      invariant props == MergedProperties(a, b)[..i]
      invariant required == set k | k in keys[..i] && k in MergedRequired(a, b)
    {
      var key := keys[i];
      var ia := IndexOf(a.properties, key);
      var ib := IndexOf(b.properties, key);
      var v: Schema;
      if ia >= 0 && ib >= 0 {
        v := MergeSchemas(a.properties[ia].1, b.properties[ib].1);
      } else if ia >= 0 {
        v := a.properties[ia].1;
      } else {
        v := b.properties[ib].1;
      }
      var both := ia >= 0 && ib >= 0 && key in a.required && key in b.required;
      MergeLoopStep(a, b, i, props, required, v, both);
      props := Put(props, key, v);
      if both {
        required := required + {key};
      }
    }
    assert keys[..|keys|] == keys;
    assert MergedProperties(a, b)[..|keys|] == MergedProperties(a, b);
    assert required == MergedRequired(a, b);
    return SObject(props, required);
  }

  /*
   * Inference (inferSchema)
   */

  function Min(x: nat, y: nat): nat { if x < y then x else y }

  function Infer(data: Json): Schema
    decreases data, 1
  {
    match data
    case JNull => Prim(KNull)
    case JArr(elems) => if |elems| == 0 then SArray(Any) else SArray(MergeAll(SampleSchemas(data)))
    case JObj(fields) => SObject(PutAll([], InferredEntries(data)), KeySet(fields))
    case JStr(_) => Prim(KString)
    case JBool(_) => Prim(KBoolean)
    case JNum(_) => Prim(KNumber)
  }

  /** The schemas of the first `SampleSize` elements of an array. */
  function SampleSchemas(data: Json): (ss: seq<Schema>)
    requires data.JArr?
    ensures |ss| == Min(|data.elems|, SampleSize)
    decreases data, 0
  {
    var n := Min(|data.elems|, SampleSize);
    seq(n, i requires 0 <= i < n => Infer(data.elems[i]))
  }

  /** Each member of an object paired with its inferred schema. */
  function InferredEntries(data: Json): (es: Record<Schema>)
    requires data.JObj?
    ensures |es| == |data.fields|
    decreases data, 0
  {
    seq(|data.fields|, i requires 0 <= i < |data.fields| => (data.fields[i].0, Infer(data.fields[i].1)))
  }

  /** The left fold of `Merge` over a non-empty list. */
  function MergeAll(ss: seq<Schema>): Schema
    requires |ss| > 0
  {
    if |ss| == 1 then ss[0] else Merge(MergeAll(ss[..|ss| - 1]), ss[|ss| - 1])
  }

  /** `MergeAll` over one more element merges it into the fold so far. */
  lemma MergeAllSnoc(ss: seq<Schema>, i: nat)
    requires 1 <= i < |ss|
    ensures MergeAll(ss[..i + 1]) == Merge(MergeAll(ss[..i]), ss[i])
  {
    assert ss[..i + 1][..i] == ss[..i];
  }

  method InferSchema(data: Json) returns (r: Schema)
    ensures r == Infer(data)
    decreases data, 1
  {
    if data == JNull { return Prim(KNull); }
    if data.JArr? {
      if |data.elems| == 0 {
        return SArray(Any);
      }
      var merged := InferSample(data);
      return SArray(merged);
    }
    if IsPlainObject(data) {
      r := InferObjectSchema(data);
      return;
    }
    if data.JStr? { return Prim(KString); }
    if data.JBool? { return Prim(KBoolean); }
    return Prim(KNumber);
  }

  /** The sampling loop of `inferSchema` for a non-empty array. */
  method InferSample(data: Json) returns (merged: Schema)
    requires data.JArr? && |data.elems| > 0
    ensures merged == MergeAll(SampleSchemas(data))
    decreases data, 0
  {
    var sample := data.elems[..Min(|data.elems|, SampleSize)];
    ghost var spec := SampleSchemas(data);
    assert sample[0] == data.elems[0];
    merged := InferSchema(sample[0]);
    assert spec[..1] == [merged];
    for i := 1 to |sample|
      invariant merged == MergeAll(spec[..i])
    {
      assert sample[i] == data.elems[i];
      var s := InferSchema(sample[i]);
      assert s == spec[i];
      MergeAllSnoc(spec, i);
      merged := MergeSchemas(merged, s);
    }
    assert spec[..|sample|] == spec;
  }

  /** The member loop of `inferSchema` for a plain object. */
  method InferObjectSchema(data: Json) returns (r: Schema)
    requires data.JObj?
    ensures r == Infer(data)
    decreases data, 0
  {
    var properties: Record<Schema> := [];
    var required: set<string> := {};
    ghost var spec := InferredEntries(data);
    for i := 0 to |data.fields|
      invariant properties == PutAll([], spec[..i])
      invariant required == KeySet(data.fields[..i])
    {
      var (key, value) := data.fields[i];
      var s := InferSchema(value);
      PutAllStep(spec, i, properties, key, s);
      properties := Put(properties, key, s);
      required := required + {key};
      KeySetTake(data.fields, i);
    }
    assert spec[..|data.fields|] == spec;
    assert data.fields[..|data.fields|] == data.fields;
    return SObject(properties, required);
  }
}

/**
  What `mergeSchemas` and `inferSchema` promise: the merge algebra, the
  `required ⊆ keys` invariant, and the sampling cap.
*/
module AstProperties {
  import opened Wrappers
  import opened JsonValue
  import opened Records
  import opened Ast

  /** The non-object cases of `mergeSchemas`. */
  lemma MergeCases(a: Schema, b: Schema)
    ensures a == Any ==> Merge(a, b) == b
    ensures b == Any ==> Merge(a, b) == a
    ensures a != Any && b != Any && TypeTag(a) != TypeTag(b) ==> Merge(a, b) == Any
    ensures a.Prim? && b == a ==> Merge(a, b) == a
    ensures a.SArray? && b.SArray? ==> Merge(a, b) == SArray(Merge(a.items, b.items))
  {
  }

  /** Merging two object schemas: union of keys, intersection of requiredness. */
  lemma MergeObjects(a: Schema, b: Schema)
    requires a.SObject? && b.SObject?
    ensures Merge(a, b).SObject?
    ensures KeySet(Merge(a, b).properties) == KeySet(a.properties) + KeySet(b.properties)
    ensures DistinctKeys(Merge(a, b).properties)
    ensures forall k :: k in Merge(a, b).required <==>
      k in KeySet(a.properties) && k in KeySet(b.properties) && k in a.required && k in b.required
    ensures forall k :: k in KeySet(a.properties) && k !in KeySet(b.properties) ==>
      Get(Merge(a, b).properties, k) == Get(a.properties, k) && k !in Merge(a, b).required
    ensures forall k :: k !in KeySet(a.properties) && k in KeySet(b.properties) ==>
      Get(Merge(a, b).properties, k) == Get(b.properties, k) && k !in Merge(a, b).required
    ensures forall k :: k in KeySet(a.properties) && k in KeySet(b.properties) ==>
      Get(Merge(a, b).properties, k) == Some(Merge(Get(a.properties, k).value, Get(b.properties, k).value))
  {
    var props := MergedProperties(a, b);
    var keys := UnionKeys(a.properties, b.properties);
    assert Merge(a, b) == SObject(props, MergedRequired(a, b));
    assert Keys(props) == keys;
    forall k | k in KeySet(a.properties) || k in KeySet(b.properties)
      ensures Get(props, k) == Some(MergedValue(a, b, k))
    {
      var i :| 0 <= i < |keys| && keys[i] == k;
      IndexOfFirst(props, k, i);
    }
  }

  /** The invariant: every schema built by merging well-formed schemas is well formed. */
  lemma {:induction false} MergeWellFormed(a: Schema, b: Schema)
    requires WellFormed(a) && WellFormed(b)
    ensures WellFormed(Merge(a, b))
    decreases a, 1
  {
    if a == Any || b == Any || TypeTag(a) != TypeTag(b) {
    } else if a.SArray? && b.SArray? {
      MergeWellFormed(a.items, b.items);
    } else if a.SObject? && b.SObject? {
      var props := MergedProperties(a, b);
      var keys := UnionKeys(a.properties, b.properties);
      assert Keys(props) == keys;
      forall i | 0 <= i < |props| ensures WellFormed(props[i].1) {
        MergedValueWellFormed(a, b, keys[i]);
      }
      assert MergedRequired(a, b) <= KeySet(props);
    }
  }

  lemma {:induction false} MergedValueWellFormed(a: Schema, b: Schema, key: string)
    requires a.SObject? && b.SObject? && WellFormed(a) && WellFormed(b)
    requires key in KeySet(a.properties) || key in KeySet(b.properties)
    ensures WellFormed(MergedValue(a, b, key))
    decreases a, 0
  {
    var ia := IndexOf(a.properties, key);
    var ib := IndexOf(b.properties, key);
    if ia >= 0 && ib >= 0 {
      MergeWellFormed(a.properties[ia].1, b.properties[ib].1);
    }
  }

  lemma {:induction false} MergeAllWellFormed(ss: seq<Schema>)
    requires |ss| > 0 && forall i :: 0 <= i < |ss| ==> WellFormed(ss[i])
    ensures WellFormed(MergeAll(ss))
  {
    if |ss| > 1 {
      MergeAllWellFormed(ss[..|ss| - 1]);
      MergeWellFormed(MergeAll(ss[..|ss| - 1]), ss[|ss| - 1]);
    }
  }

  /** The invariant holds of every inferred schema: `required ⊆ keys(properties)`. */
  lemma {:induction false} InferWellFormed(data: Json)
    ensures WellFormed(Infer(data))
    decreases data
  {
    match data
    case JArr(elems) =>
      if |elems| > 0 {
        var ss := SampleSchemas(data);
        forall i | 0 <= i < |ss| ensures WellFormed(ss[i]) {
          InferWellFormed(elems[i]);
        }
        MergeAllWellFormed(ss);
      }
    case JObj(fields) =>
      var es := InferredEntries(data);
      var props := PutAll([], es);
      PutAllKeys([], es);
      assert Keys(es) == Keys(fields);
      forall i | 0 <= i < |props| ensures WellFormed(props[i].1) {
        PutAllValues([], es, i);
        var j :| 0 <= j < |es| && es[j] == props[i];
        InferWellFormed(fields[j].1);
      }
    case _ =>
  }

  /** `Dedup(xs + ys)` is `xs` when `xs` is duplicate-free and already holds every `y`. */
  lemma {:induction false} DedupAbsorbs(xs: seq<string>, ys: seq<string>)
    requires forall i, j :: 0 <= i < j < |xs| ==> xs[i] != xs[j]
    requires forall y :: y in ys ==> y in xs
    ensures Dedup(xs + ys) == xs
  {
    if ys != [] {
      var init := ys[..|ys| - 1];
      assert (xs + ys)[..|xs + ys| - 1] == xs + init;
      DedupAbsorbs(xs, init);
    } else {
      assert xs + ys == xs;
    }
  }

  /** `mergeSchemas(s, s) == s`. */
  lemma {:induction false} MergeIdempotent(s: Schema)
    requires WellFormed(s)
    ensures Merge(s, s) == s
  {
    match s
    case Prim(_) =>
    case SArray(items) =>
      MergeIdempotent(items);
    case SObject(p, r) =>
      forall i | 0 <= i < |p| ensures Merge(p[i].1, p[i].1) == p[i].1 {
        MergeIdempotent(p[i].1);
      }
      MergeSelfObject(s);
  }

  /** The object case of `MergeIdempotent`, once every member merges with itself to itself. */
  lemma MergeSelfObject(s: Schema)
    requires s.SObject? && WellFormed(s)
    requires forall i :: 0 <= i < |s.properties| ==> Merge(s.properties[i].1, s.properties[i].1) == s.properties[i].1
    ensures Merge(s, s) == s
  {
    var p, r := s.properties, s.required;
    var keys := UnionKeys(p, p);
    assert keys == Keys(p) by {
      assert forall i, j :: 0 <= i < j < |Keys(p)| ==> Keys(p)[i] != Keys(p)[j];
      DedupAbsorbs(Keys(p), Keys(p));
    }
    var props := MergedProperties(s, s);
    forall i | 0 <= i < |p| ensures props[i] == p[i] {
      assert keys[i] == Keys(p)[i] == p[i].0;
      IndexOfFirst(p, p[i].0, i);
      assert MergedValue(s, s, p[i].0) == Merge(p[i].1, p[i].1);
    }
    assert props == p;
    assert MergedRequired(s, s) == r;
  }

  /** Swapping the operands changes neither the key set nor the required set. */
  lemma MergeSwap(a: Schema, b: Schema)
    ensures Merge(a, b).SObject? <==> Merge(b, a).SObject?
    ensures Merge(a, b).SObject? ==>
      KeySet(Merge(a, b).properties) == KeySet(Merge(b, a).properties) &&
      Merge(a, b).required == Merge(b, a).required
  {
    if a.SObject? && b.SObject? {
      MergeObjects(a, b);
      MergeObjects(b, a);
    }
  }

  /** An object's schema: every key required. */
  lemma InferObjectRequired(fields: Record<Json>)
    ensures Infer(JObj(fields)).SObject?
    ensures Infer(JObj(fields)).required == KeySet(Infer(JObj(fields)).properties) == KeySet(fields)
  {
    var es := InferredEntries(JObj(fields));
    PutAllKeys([], es);
    assert Keys(es) == Keys(fields);
  }

  /** With distinct keys (as `JSON.parse` gives), each member is inferred in insertion order. */
  lemma InferObjectMembers(fields: Record<Json>)
    requires DistinctKeys(fields)
    ensures |Infer(JObj(fields)).properties| == |fields|
    ensures forall i :: 0 <= i < |fields| ==>
      Infer(JObj(fields)).properties[i] == (fields[i].0, Infer(fields[i].1))
  {
    var es := InferredEntries(JObj(fields));
    assert Infer(JObj(fields)) == SObject(PutAll([], es), KeySet(fields));
    assert forall i :: 0 <= i < |es| ==> es[i].0 == fields[i].0;
    DistinctKeysAgree(es, fields);
    PutAllEmpty(es);
    assert Infer(JObj(fields)).properties == es;
    forall i | 0 <= i < |fields| ensures es[i] == (fields[i].0, Infer(fields[i].1)) {
    }
  }

  /** The array cases of `inferSchema`: `array(any)`, or the fold over the sample. */
  lemma InferArray(elems: seq<Json>)
    ensures elems == [] ==> Infer(JArr(elems)) == SArray(Any)
    ensures elems != [] ==> Infer(JArr(elems)) == SArray(MergeAll(SampleSchemas(JArr(elems))))
    ensures forall i :: 0 <= i < Min(|elems|, SampleSize) ==> SampleSchemas(JArr(elems))[i] == Infer(elems[i])
  {
  }

  /** Elements at index 50 and beyond never affect the inferred schema. */
  lemma InferSampleCap(elems: seq<Json>, extra: seq<Json>)
    requires |elems| >= SampleSize
    ensures Infer(JArr(elems + extra)) == Infer(JArr(elems))
  {
    var s1 := SampleSchemas(JArr(elems + extra));
    var s2 := SampleSchemas(JArr(elems));
    assert forall i :: 0 <= i < |s1| ==> (elems + extra)[i] == elems[i];
    assert s1 == s2;
  }

  /** Keys present in at least one of the schemas. */
  function KeysInSome(ss: seq<Schema>): set<string>
    requires forall i :: 0 <= i < |ss| ==> ss[i].SObject?
  {
    set i, k | 0 <= i < |ss| && k in KeySet(ss[i].properties) :: k
  }

  /** Keys required by every one of the schemas. */
  function RequiredInAll(ss: seq<Schema>): set<string>
    requires |ss| > 0 && forall i :: 0 <= i < |ss| ==> ss[i].SObject?
  {
    set k | k in ss[0].required && forall i :: 0 <= i < |ss| ==> k in ss[i].required
  }

  /** Folding `Merge` over object schemas: the union of keys, the intersection of requiredness. */
  lemma {:induction false} MergeAllObjects(ss: seq<Schema>)
    requires |ss| > 0
    requires forall i :: 0 <= i < |ss| ==> ss[i].SObject? && WellFormed(ss[i])
    ensures MergeAll(ss).SObject?
    ensures KeySet(MergeAll(ss).properties) == KeysInSome(ss)
    ensures MergeAll(ss).required == RequiredInAll(ss)
  {
    if |ss| > 1 {
      var init := ss[..|ss| - 1];
      var last := ss[|ss| - 1];
      assert forall i :: 0 <= i < |init| ==> init[i] == ss[i];
      MergeAllObjects(init);
      MergeAllWellFormed(init);
      var m := MergeAll(init);
      assert MergeAll(ss) == Merge(m, last);
      assert Merge(m, last).SObject?
        && KeySet(Merge(m, last).properties) == KeySet(m.properties) + KeySet(last.properties)
        && Merge(m, last).required == m.required * last.required
      by {
        MergeObjects(m, last);
      }
      KeysInSomeSnoc(ss);
      RequiredInAllSnoc(ss);
    } else {
      assert KeysInSome(ss) == KeySet(ss[0].properties);
      assert RequiredInAll(ss) == ss[0].required;
    }
  }

  lemma KeysInSomeSnoc(ss: seq<Schema>)
    requires |ss| > 1 && forall i :: 0 <= i < |ss| ==> ss[i].SObject?
    ensures KeysInSome(ss) == KeysInSome(ss[..|ss| - 1]) + KeySet(ss[|ss| - 1].properties)
  {
    var init := ss[..|ss| - 1];
    forall k | k in KeysInSome(ss) ensures k in KeysInSome(init) + KeySet(ss[|ss| - 1].properties) {
      var i :| 0 <= i < |ss| && k in KeySet(ss[i].properties);
      if i < |ss| - 1 { assert ss[i] == init[i]; }
    }
    forall k | k in KeysInSome(init) ensures k in KeysInSome(ss) {
      var i :| 0 <= i < |init| && k in KeySet(init[i].properties);
      assert ss[i] == init[i];
    }
  }

  lemma RequiredInAllSnoc(ss: seq<Schema>)
    requires |ss| > 1 && forall i :: 0 <= i < |ss| ==> ss[i].SObject?
    ensures RequiredInAll(ss) == RequiredInAll(ss[..|ss| - 1]) * ss[|ss| - 1].required
  {
    var init := ss[..|ss| - 1];
    forall k ensures k in RequiredInAll(ss) <==> k in RequiredInAll(init) && k in ss[|ss| - 1].required {
      if k in RequiredInAll(init) && k in ss[|ss| - 1].required {
        forall i | 0 <= i < |ss| ensures k in ss[i].required {
          if i < |ss| - 1 { assert ss[i] == init[i]; }
        }
      }
      if k in RequiredInAll(ss) {
        forall i | 0 <= i < |init| ensures k in init[i].required {
          assert ss[i] == init[i];
        }
      }
    }
  }

  /**
    An array whose sampled elements are all objects: the item schema has
    every key seen in some sampled element, and requires exactly the keys
    present in all of them (so the result does not depend on their order).
  */
  lemma ArrayOfObjects(elems: seq<Json>)
    requires |elems| > 0
    requires forall i :: 0 <= i < Min(|elems|, SampleSize) ==> elems[i].JObj?
    ensures Infer(JArr(elems)).items.SObject?
    ensures var n := Min(|elems|, SampleSize);
      forall k :: k in KeySet(Infer(JArr(elems)).items.properties) <==>
        exists i :: 0 <= i < n && k in KeySet(elems[i].fields)
    ensures var n := Min(|elems|, SampleSize);
      forall k :: k in Infer(JArr(elems)).items.required <==>
        forall i :: 0 <= i < n ==> k in KeySet(elems[i].fields)
  {
    var ss := SampleSchemas(JArr(elems));
    forall i | 0 <= i < |ss|
      ensures ss[i].SObject? && WellFormed(ss[i])
      ensures KeySet(ss[i].properties) == ss[i].required == KeySet(elems[i].fields)
    {
      InferWellFormed(elems[i]);
      InferObjectRequired(elems[i].fields);
    }
    MergeAllObjects(ss);
  }
}
