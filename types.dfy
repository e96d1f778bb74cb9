/**
  The older TypeScript generator (lib/engine/types.ts), with its own
  inference to `TypeDef` nodes tagged by strings such as "number",
  "object" or "object[]".

  `TypeDefOf`, `ArrayDef` and `ObjectDef` specify `inferType`,
  `inferArray` and `inferObject`, which are the methods below; `Traversal`
  specifies the `traverse` closure of `renderInterfaces`, which is the
  `InterfaceRenderer` class over the `interfaces` map.
*/
module TypesGen {
  import opened Wrappers
  import opened JsonValue
  import opened Records
  import opened Text
  import Ast

  datatype TypeDef = TypeDef(tag: string, isOptional: bool, properties: Fields, items: Option<TypeDef>)

  /** The optional `properties` record of a node. */
  datatype Fields = Absent | Present(entries: Record<TypeDef>)

  /** A node with only its `type`. */
  function Leaf(tag: string): TypeDef
  {
    TypeDef(tag, false, Absent, None)
  }

  /** Only this many leading elements of an array are inspected. */
  const SampleSize: nat := 50

  /*
   * Inference
   */

  /** `inferType(value)`. */
  function TypeDefOf(v: Json): TypeDef
    decreases v, 2
  {
    match v
    case JNull => Leaf("null")
    case JArr(_) => ArrayDef(v)
    case JObj(_) => ObjectDef(v)
    case _ => Leaf(TypeOf(v))
  }

  /** `inferObject(obj)`: an "object" node with `props[key] = inferType(obj[key])` per key. */
  function ObjectDef(v: Json): TypeDef
    requires v.JObj?
    decreases v, 1
  {
    TypeDef("object", false, Present(PutAll([], PropEntries(v))), None)
  }

  function PropEntries(v: Json): (es: Record<TypeDef>)
    requires v.JObj?
    ensures |es| == |v.fields|
    ensures forall i :: 0 <= i < |es| ==> es[i].0 == v.fields[i].0
    decreases v, 0
  {
    seq(|v.fields|, i requires 0 <= i < |v.fields| => (v.fields[i].0, TypeDefOf(v.fields[i].1)))
  }

  /** `arr.slice(0, 50).map(inferType)`. */
  function Sample(v: Json): (ss: seq<TypeDef>)
    requires v.JArr?
    ensures |ss| == Ast.Min(|v.elems|, SampleSize)
    decreases v, 0
  {
    var n := Ast.Min(|v.elems|, SampleSize);
    seq(n, i requires 0 <= i < n => TypeDefOf(v.elems[i]))
  }

  /** `inferArray(arr)`. */
  function ArrayDef(v: Json): TypeDef
    requires v.JArr?
    decreases v, 1
  {
    if |v.elems| == 0 then Leaf("any[]") else ArrayOf(Sample(v))
  }

  /** Every sampled node has the first one's type, and it is not "object". */
  predicate Uniform(schemas: seq<TypeDef>)
    requires |schemas| > 0
  {
    forall i :: 0 <= i < |schemas| ==> schemas[i].tag == schemas[0].tag && schemas[i].tag != "object"
  }

  predicate ObjectsOrNulls(schemas: seq<TypeDef>)
  {
    forall i :: 0 <= i < |schemas| ==> schemas[i].tag == "object" || schemas[i].tag == "null"
  }

  /** The array node built from the sampled element nodes. */
  function ArrayOf(schemas: seq<TypeDef>): TypeDef
    requires |schemas| > 0
  {
    if Uniform(schemas) then Leaf(schemas[0].tag + "[]")
    else if ObjectsOrNulls(schemas) then
      TypeDef("object[]", false, Absent, Some(TypeDef("object", false, Present(MergedProps(schemas)), None)))
    else Leaf("any[]")
  }

  /** The properties of a node, none when it has no `properties`. */
  function Props(s: TypeDef): Record<TypeDef>
  {
    if s.properties.Present? then s.properties.entries else []
  }

  /** The keys of every sampled node, in order, with repetitions. */
  function KeyConcat(schemas: seq<TypeDef>): seq<string>
  {
    if schemas == [] then [] else KeyConcat(schemas[..|schemas| - 1]) + Keys(Props(schemas[|schemas| - 1]))
  }

  /** The `allKeys` set, in insertion order. */
  function AllKeys(schemas: seq<TypeDef>): seq<string>
  {
    Ast.Dedup(KeyConcat(schemas))
  }

  /** `valuesForKey`: the definitions of `key` in the nodes that have it, in order. */
  function ValuesFor(schemas: seq<TypeDef>, key: string): seq<TypeDef>
  {
    if schemas == [] then []
    else
      var g := Get(Props(schemas[0]), key);
      if g.Some? then [g.value] + ValuesFor(schemas[1..], key) else ValuesFor(schemas[1..], key)
  }

  /** `schemas.some(s => s.properties && !s.properties[key])`. */
  predicate SomeLacks(schemas: seq<TypeDef>, key: string)
  {
    exists i :: 0 <= i < |schemas| && schemas[i].properties.Present? && key !in KeySet(schemas[i].properties.entries)
  }

  /** The merged definition of a key: its first definition, optional when some object lacks the key. */
  function MergedDef(schemas: seq<TypeDef>, key: string): TypeDef
    requires ValuesFor(schemas, key) != []
  {
    ValuesFor(schemas, key)[0].(isOptional := SomeLacks(schemas, key))
  }

  /** `mergedProps` after the `allKeys.forEach` loop has handled `keys`. */
  function MergeFold(schemas: seq<TypeDef>, keys: seq<string>): Record<TypeDef>
  {
    if keys == [] then []
    else
      var p := MergeFold(schemas, keys[..|keys| - 1]);
      var key := keys[|keys| - 1];
      if ValuesFor(schemas, key) == [] then p else Put(p, key, MergedDef(schemas, key))
  }

  function MergedProps(schemas: seq<TypeDef>): Record<TypeDef>
  {
    MergeFold(schemas, AllKeys(schemas))
  }

  method InferType(v: Json) returns (t: TypeDef)
    ensures t == TypeDefOf(v)
    decreases v, 2
  {
    if v == JNull { return Leaf("null"); }
    if v.JArr? {
      t := InferArray(v);
      return;
    }
    if TypeOf(v) == "object" {
      t := InferObject(v);
      return;
    }
    return Leaf(TypeOf(v));
  }

  method InferObject(v: Json) returns (t: TypeDef)
    requires v.JObj?
    ensures t == ObjectDef(v)
    decreases v, 1
  {
    var props: Record<TypeDef> := [];
    ghost var spec := PropEntries(v);
    for i := 0 to |v.fields|
      invariant props == PutAll([], spec[..i])
    {
      var (key, value) := v.fields[i];
      var d := InferType(value);
      PutAllStep(spec, i, props, key, d);
      props := Put(props, key, d);
    }
    assert spec[..|v.fields|] == spec;
    return TypeDef("object", false, Present(props), None);
  }

  method InferArray(v: Json) returns (t: TypeDef)
    requires v.JArr?
    ensures t == ArrayDef(v)
    decreases v, 1
  {
    if |v.elems| == 0 { return Leaf("any[]"); }
    var sample := v.elems[..Ast.Min(|v.elems|, SampleSize)];
    ghost var spec := Sample(v);
    var schemas: seq<TypeDef> := [];
    for i := 0 to |sample|
      invariant schemas == spec[..i]
    {
      assert sample[i] == v.elems[i];
      var s := InferType(sample[i]);
      schemas := schemas + [s];
    }
    assert schemas == spec;
    if Uniform(schemas) {
      return Leaf(schemas[0].tag + "[]");
    }
    if ObjectsOrNulls(schemas) {
      var allKeys := CollectKeys(schemas);
      var merged := MergeKeys(schemas, allKeys);
      return TypeDef("object[]", false, Absent, Some(TypeDef("object", false, Present(merged), None)));
    }
    return Leaf("any[]");
  }

  /** The `schemas.forEach` loop filling the `allKeys` set. */
  method CollectKeys(schemas: seq<TypeDef>) returns (allKeys: seq<string>)
    ensures allKeys == AllKeys(schemas)
  {
    allKeys := [];
    for i := 0 to |schemas|
      invariant allKeys == Ast.Dedup(KeyConcat(schemas[..i]))
    {
      assert schemas[..i + 1][..i] == schemas[..i];
      assert KeyConcat(schemas[..i + 1]) == KeyConcat(schemas[..i]) + Keys(Props(schemas[i]));
      if schemas[i].properties.Present? {
        allKeys := AddKeys(allKeys, KeyConcat(schemas[..i]), Keys(schemas[i].properties.entries));
      } else {
        assert KeyConcat(schemas[..i]) + Keys(Props(schemas[i])) == KeyConcat(schemas[..i]);
      }
    }
    assert schemas[..|schemas|] == schemas;
  }

  /** `Object.keys(s.properties).forEach(k => allKeys.add(k))`. */
  method AddKeys(allKeys: seq<string>, ghost before: seq<string>, ks: seq<string>) returns (after: seq<string>)
    requires allKeys == Ast.Dedup(before)
    ensures after == Ast.Dedup(before + ks)
  {
    after := allKeys;
    assert before + ks[..0] == before;
    var j := 0;
    while j < |ks|
      invariant j <= |ks|
      invariant after == Ast.Dedup(before + ks[..j])
    {
      ghost var xs := before + ks[..j];
      after := AddKey(after, xs, ks[j]);
      PrefixSnoc(before, ks, j);
      j := j + 1;
    }
    assert ks[..j] == ks;
  }

  /** `allKeys.add(k)`. */
  function AddKey(allKeys: seq<string>, ghost xs: seq<string>, k: string): (r: seq<string>)
    requires allKeys == Ast.Dedup(xs)
    ensures r == Ast.Dedup(xs + [k])
  {
    DedupSnoc(xs, k);
    if k in allKeys then allKeys else allKeys + [k]
  }

  lemma PrefixSnoc(before: seq<string>, ks: seq<string>, j: nat)
    requires j < |ks|
    ensures before + ks[..j + 1] == (before + ks[..j]) + [ks[j]]
  {
    assert ks[..j + 1] == ks[..j] + [ks[j]];
  }

  /** `allKeys.add(k)` on the first occurrences of `xs`. */
  lemma DedupSnoc(xs: seq<string>, k: string)
    ensures Ast.Dedup(xs + [k]) == if k in Ast.Dedup(xs) then Ast.Dedup(xs) else Ast.Dedup(xs) + [k]
  {
    assert (xs + [k])[..|xs|] == xs;
  }

  /** The `allKeys.forEach` loop filling `mergedProps`. */
  method MergeKeys(schemas: seq<TypeDef>, keys: seq<string>) returns (mergedProps: Record<TypeDef>)
    ensures mergedProps == MergeFold(schemas, keys)
  {
    mergedProps := [];
    for i := 0 to |keys|
      invariant mergedProps == MergeFold(schemas, keys[..i])
    {
      assert keys[..i + 1][..i] == keys[..i];
      var key := keys[i];
      var valuesForKey := ValuesFor(schemas, key);
      if |valuesForKey| > 0 {
        mergedProps := Put(mergedProps, key, valuesForKey[0].(isOptional := SomeLacks(schemas, key)));
      }
    }
    assert keys[..|keys|] == keys;
  }

  /*
   * Rendering
   */

  predicate IsArrayTag(tag: string)
  {
    |tag| >= 2 && tag[|tag| - 2..] == "[]"
  }

  /** `  ${key}${optionalFlag}: ${propType};\n`. */
  function Line(key: string, def: TypeDef, t: string): string
  {
    "  " + key + (if def.isOptional then "?" else "") + ": " + t + ";\n"
  }

  function Block(name: string, lines: seq<string>): string
  {
    "export interface " + name + " {\n" + Concat(lines) + "}"
  }

  /** `traverse(node, name)`: the text for the node, and the `interfaces` map after it. */
  function Traversal(node: TypeDef, name: string, m: Record<string>): (string, Record<string>)
    decreases node, 1
  {
    if IsArrayTag(node.tag) then
      if node.items.Some? && node.items.value.tag == "object" then
        var (t, m') := Traversal(node.items.value, Singular(name), m);
        (t + "[]", m')
      else (node.tag, m)
    else if node.tag == "object" && node.properties.Present? then
      var iname := Capitalize(name);
      var (lines, m') := TraversalProps(node, 0, m);
      (iname, Put(m', iname, Block(iname, lines)))
    else (node.tag, m)
  }

  /** The member lines of an object node from its `i`-th property on. */
  function TraversalProps(node: TypeDef, i: nat, m: Record<string>): (seq<string>, Record<string>)
    requires node.properties.Present? && i <= |node.properties.entries|
    decreases node, 0, |node.properties.entries| - i
  {
    var props := node.properties.entries;
    if i == |props| then ([], m)
    else
      var (key, def) := props[i];
      assert props[i] in props;
      var (t, m1) := Traversal(def, key, m);
      var (rest, m2) := TraversalProps(node, i + 1, m1);
      ([Line(key, def, t)] + rest, m2)
  }

  /** `Array.from(interfaces.values())`. */
  function Values(m: Record<string>): (vs: seq<string>)
    ensures |vs| == |m|
  {
    seq(|m|, i requires 0 <= i < |m| => m[i].1)
  }

  /** `generateTs(json, rootName)`, with a failed parse as `None`. */
  function GenerateTsSpec(json: Option<Json>, rootName: string): string
  {
    match json
    case None => "// Invalid JSON"
    case Some(data) => Join(Reverse(Values(Traversal(TypeDefOf(data), rootName, []).1)), "\n\n")
  }

  /** `renderInterfaces`: the `traverse` closure over the `interfaces` map. */
  class InterfaceRenderer {
    var interfaces: Record<string>

    constructor()
      ensures interfaces == []
    {
      interfaces := [];
    }

    method Traverse(node: TypeDef, name: string) returns (t: string)
      modifies this
      ensures (t, interfaces) == Traversal(node, name, old(interfaces))
      decreases node, 1
    {
      if IsArrayTag(node.tag) {
        if node.items.Some? && node.items.value.tag == "object" {
          var itemName := Singular(name);
          var itemType := Traverse(node.items.value, itemName);
          return itemType + "[]";
        }
        return node.tag;
      }
      if node.tag == "object" && node.properties.Present? {
        var interfaceName := Capitalize(name);
        var header := "export interface " + interfaceName + " {\n";
        var block := header;
        var props := node.properties.entries;
        ghost var total := TraversalProps(node, 0, interfaces);
        for i := 0 to |props|
          invariant header + Concat(total.0) == block + Concat(TraversalProps(node, i, interfaces).0)
          invariant total.1 == TraversalProps(node, i, interfaces).1
        {
          ghost var before := interfaces;
          var (key, def) := props[i];
          assert props[i] in props;
          var propType := Traverse(def, key);
          var optionalFlag := if def.isOptional then "?" else "";
          var line := "  " + key + optionalFlag + ": " + propType + ";\n";
          TraversalPropsStep(node, i, before);
          Append(block, line, Concat(TraversalProps(node, i + 1, interfaces).0));
          block := block + line;
        }
        assert TraversalProps(node, |props|, interfaces).0 == [];
        assert block == header + Concat(total.0);
        block := block + "}";
        interfaces := Put(interfaces, interfaceName, block);
        return interfaceName;
      }
      return node.tag;
    }
  }

  /** One step of `TraversalProps`: the `i`-th line, then the rest from the map it leaves. */
  lemma TraversalPropsStep(node: TypeDef, i: nat, m: Record<string>)
    requires node.properties.Present? && i < |node.properties.entries|
    ensures var (key, def) := node.properties.entries[i];
            var (t, m1) := Traversal(def, key, m);
            && Concat(TraversalProps(node, i, m).0) == Line(key, def, t) + Concat(TraversalProps(node, i + 1, m1).0)
            && TraversalProps(node, i, m).1 == TraversalProps(node, i + 1, m1).1
  {
    var (key, def) := node.properties.entries[i];
    var (t, m1) := Traversal(def, key, m);
    var rest := TraversalProps(node, i + 1, m1).0;
    assert ([Line(key, def, t)] + rest)[1..] == rest;
  }

  lemma Append(block: string, line: string, rest: string)
    ensures block + (line + rest) == (block + line) + rest
  {
  }

  method GenerateTs(json: Option<Json>, rootName: string) returns (out: string)
    ensures out == GenerateTsSpec(json, rootName)
  {
    if json.None? {
      return "// Invalid JSON";
    }
    var schema := InferType(json.value);
    var renderer := new InterfaceRenderer();
    var _ := renderer.Traverse(schema, rootName);
    out := Join(Reverse(Values(renderer.interfaces)), "\n\n");
  }
}

/** What the older generator promises. */
module TypesProperties {
  import opened Wrappers
  import opened JsonValue
  import opened Records
  import opened Text
  import Ast
  import opened TypesGen

  /*
   * Inference
   */

  /** Inferred nodes are never themselves marked optional. */
  lemma TypeDefOfNotOptional(v: Json)
    ensures !TypeDefOf(v).isOptional
  {
  }

  /** An object's node has one property per key, in order when the keys are distinct. */
  lemma ObjectNode(v: Json)
    requires v.JObj?
    ensures var t := TypeDefOf(v);
      && t.tag == "object" && t.properties.Present? && t.items.None?
      && KeySet(t.properties.entries) == KeySet(v.fields)
      && DistinctKeys(t.properties.entries)
      && (DistinctKeys(v.fields) ==> t.properties.entries == PropEntries(v))
  {
    var es := PropEntries(v);
    ObjectKeys(v, es);
    if DistinctKeys(v.fields) {
      FreshEntries(v, es);
    }
  }

  lemma ObjectKeys(v: Json, es: Record<TypeDef>)
    requires v.JObj? && es == PropEntries(v)
    ensures KeySet(PutAll([], es)) == KeySet(v.fields) && DistinctKeys(PutAll([], es))
  {
    PutAllKeys([], es);
    KeysAgree(es, v.fields);
    assert Keys<TypeDef>([]) == [];
  }

  lemma FreshEntries(v: Json, es: Record<TypeDef>)
    requires v.JObj? && es == PropEntries(v) && DistinctKeys(v.fields)
    ensures PutAll([], es) == es
  {
    DistinctKeysAgree(es, v.fields);
    PutAllEmpty(es);
  }

  /** `null` is "null", an array goes to `inferArray`, any other value is its `typeof`. */
  lemma InferTypeCases(v: Json)
    ensures v == JNull ==> TypeDefOf(v) == Leaf("null")
    ensures v.JArr? ==> TypeDefOf(v) == ArrayDef(v)
    ensures v.JStr? ==> TypeDefOf(v) == Leaf("string")
    ensures v.JNum? ==> TypeDefOf(v) == Leaf("number")
    ensures v.JBool? ==> TypeDefOf(v) == Leaf("boolean")
  {
  }

  /** An empty array is "any[]", and only the first 50 elements are looked at. */
  lemma ArraySample(elems: seq<Json>)
    ensures ArrayDef(JArr([])) == Leaf("any[]")
    ensures |elems| > SampleSize ==> ArrayDef(JArr(elems)) == ArrayDef(JArr(elems[..SampleSize]))
  {
    if |elems| > SampleSize {
      var a, b := Sample(JArr(elems)), Sample(JArr(elems[..SampleSize]));
      forall i | 0 <= i < SampleSize ensures a[i] == b[i] {
        assert elems[..SampleSize][i] == elems[i];
      }
      assert a == b;
    }
  }

  /** If every sampled node is the same non-object leaf, the array is that type with `[]`. */
  lemma UniformArray(elems: seq<Json>, tag: string)
    requires |elems| > 0 && tag != "object"
    requires forall i :: 0 <= i < Ast.Min(|elems|, SampleSize) ==> TypeDefOf(elems[i]) == Leaf(tag)
    ensures ArrayDef(JArr(elems)) == Leaf(tag + "[]")
  {
    var schemas := Sample(JArr(elems));
    forall i | 0 <= i < |schemas| ensures schemas[i].tag == tag {
      assert schemas[i] == TypeDefOf(elems[i]);
    }
  }

  /** Arrays whose sampled elements are all null, all strings, all numbers or all booleans. */
  lemma ScalarArrays(elems: seq<Json>)
    requires |elems| > 0
    ensures var n := Ast.Min(|elems|, SampleSize);
      && ((forall i :: 0 <= i < n ==> elems[i] == JNull) ==> ArrayDef(JArr(elems)) == Leaf("null[]"))
      && ((forall i :: 0 <= i < n ==> elems[i].JStr?) ==> ArrayDef(JArr(elems)) == Leaf("string[]"))
      && ((forall i :: 0 <= i < n ==> elems[i].JNum?) ==> ArrayDef(JArr(elems)) == Leaf("number[]"))
      && ((forall i :: 0 <= i < n ==> elems[i].JBool?) ==> ArrayDef(JArr(elems)) == Leaf("boolean[]"))
  {
    var n := Ast.Min(|elems|, SampleSize);
    if forall i :: 0 <= i < n ==> elems[i] == JNull { UniformArray(elems, "null"); }
    if forall i :: 0 <= i < n ==> elems[i].JStr? { UniformArray(elems, "string"); }
    if forall i :: 0 <= i < n ==> elems[i].JNum? { UniformArray(elems, "number"); }
    if forall i :: 0 <= i < n ==> elems[i].JBool? { UniformArray(elems, "boolean"); }
  }

  /**
    An element's node is tagged "object" exactly for objects and "null"
    exactly for null; no node is tagged "any".
  */
  lemma ElementTag(v: Json)
    ensures TypeDefOf(v).tag == "object" <==> v.JObj?
    ensures TypeDefOf(v).tag == "null" <==> v == JNull
    ensures TypeDefOf(v).tag != "any"
  {
    if v.JArr? {
      var t := ArrayDef(v).tag;
      if |v.elems| == 0 {
        assert t == "any[]";
      } else {
        var schemas := Sample(v);
        if Uniform(schemas) {
          var u := schemas[0].tag + "[]";
          assert t == u && u[|u| - 1] == ']';
        } else if ObjectsOrNulls(schemas) {
          assert t == "object[]";
        } else {
          assert t == "any[]";
        }
      }
      assert |t| > 0 && t[|t| - 1] == ']';
    }
  }

  /** `arrayOf` falls through to "any[]" exactly when neither of its two tests holds. */
  lemma ArrayOfAny(schemas: seq<TypeDef>)
    requires |schemas| > 0 && schemas[0].tag != "any"
    ensures ArrayOf(schemas) == Leaf("any[]") <==> !Uniform(schemas) && !ObjectsOrNulls(schemas)
  {
    if Uniform(schemas) {
      var t := schemas[0].tag;
      assert (t + "[]")[..|t|] == t;
    }
  }

  /** Neither test holds exactly when two tags differ and some tag is neither "object" nor "null". */
  lemma NeitherTest(schemas: seq<TypeDef>)
    requires |schemas| > 0
    ensures !Uniform(schemas) && !ObjectsOrNulls(schemas) <==>
      && (exists i, j :: 0 <= i < |schemas| && 0 <= j < |schemas| && schemas[i].tag != schemas[j].tag)
      && (exists k :: 0 <= k < |schemas| && schemas[k].tag != "object" && schemas[k].tag != "null")
  {
    if !Uniform(schemas) && !ObjectsOrNulls(schemas) {
      var k :| 0 <= k < |schemas| && schemas[k].tag != "object" && schemas[k].tag != "null";
      var i :| 0 <= i < |schemas| && !(schemas[i].tag == schemas[0].tag && schemas[i].tag != "object");
      if schemas[i].tag == schemas[0].tag {
        assert schemas[i].tag != schemas[k].tag;
      } else {
        assert schemas[i].tag != schemas[0].tag;
      }
    }
  }

  /**
    An array is "any[]" exactly when it is empty, or two sampled elements
    have nodes of different types and some sampled element is neither an
    object nor null.
  */
  lemma MixedArray(elems: seq<Json>)
    ensures var n := Ast.Min(|elems|, SampleSize);
      ArrayDef(JArr(elems)) == Leaf("any[]") <==>
        || |elems| == 0
        || ((exists i, j :: 0 <= i < n && 0 <= j < n && TypeDefOf(elems[i]).tag != TypeDefOf(elems[j]).tag)
            && (exists k :: 0 <= k < n && !(elems[k].JObj? || elems[k] == JNull)))
  {
    var n := Ast.Min(|elems|, SampleSize);
    if |elems| > 0 {
      var schemas := Sample(JArr(elems));
      assert forall i :: 0 <= i < n ==> schemas[i] == TypeDefOf(elems[i]);
      ElementTag(elems[0]);
      ArrayOfAny(schemas);
      NeitherTest(schemas);
      forall k | 0 <= k < n
        ensures schemas[k].tag != "object" && schemas[k].tag != "null" <==> !(elems[k].JObj? || elems[k] == JNull)
      {
        ElementTag(elems[k]);
      }
    }
  }

  /*
   * Merging an array of objects
   */

  /** A key is collected exactly when some sampled node has it. */
  lemma {:induction false} KeyConcatMembers(schemas: seq<TypeDef>, k: string)
    ensures k in KeyConcat(schemas) <==> exists i :: 0 <= i < |schemas| && k in KeySet(Props(schemas[i]))
  {
    if schemas != [] {
      var init := schemas[..|schemas| - 1];
      var last := schemas[|schemas| - 1];
      assert k in KeyConcat(schemas) <==> k in KeyConcat(init) || k in KeySet(Props(last)) by {
        assert KeyConcat(schemas) == KeyConcat(init) + Keys(Props(last));
      }
      KeyConcatMembers(init, k);
      SomeHasSnoc(schemas, k);
    }
  }

  /** Some node of `schemas` has `k` exactly when one before the last does or the last one does. */
  lemma SomeHasSnoc(schemas: seq<TypeDef>, k: string)
    requires schemas != []
    ensures var init := schemas[..|schemas| - 1];
      (exists i :: 0 <= i < |schemas| && k in KeySet(Props(schemas[i]))) <==>
      (exists i :: 0 <= i < |init| && k in KeySet(Props(init[i]))) || k in KeySet(Props(schemas[|schemas| - 1]))
  {
    var init := schemas[..|schemas| - 1];
    if exists i :: 0 <= i < |schemas| && k in KeySet(Props(schemas[i])) {
      var i :| 0 <= i < |schemas| && k in KeySet(Props(schemas[i]));
      if i < |init| { assert init[i] == schemas[i]; }
    }
    if exists i :: 0 <= i < |init| && k in KeySet(Props(init[i])) {
      var i :| 0 <= i < |init| && k in KeySet(Props(init[i]));
      assert schemas[i] == init[i];
    }
  }

  /** `valuesForKey` is empty exactly when no node has the key, and starts with the first one's definition. */
  lemma ValuesForFirst(schemas: seq<TypeDef>, key: string)
    ensures ValuesFor(schemas, key) != [] <==> exists i :: 0 <= i < |schemas| && key in KeySet(Props(schemas[i]))
    ensures ValuesFor(schemas, key) != [] ==>
      exists i :: (0 <= i < |schemas| && key in KeySet(Props(schemas[i]))
        && (forall i' :: 0 <= i' < i ==> key !in KeySet(Props(schemas[i'])))
        && Get(Props(schemas[i]), key) == Some(ValuesFor(schemas, key)[0]))
  {
    ValuesForEmpty(schemas, key);
    ValuesForHead(schemas, key);
  }

  lemma {:induction false} ValuesForEmpty(schemas: seq<TypeDef>, key: string)
    ensures ValuesFor(schemas, key) != [] <==> exists i :: 0 <= i < |schemas| && key in KeySet(Props(schemas[i]))
  {
    if schemas != [] {
      var rest := schemas[1..];
      ValuesForEmpty(rest, key);
      if Get(Props(schemas[0]), key).None? {
        assert ValuesFor(schemas, key) == ValuesFor(rest, key);
        if exists i :: 0 <= i < |schemas| && key in KeySet(Props(schemas[i])) {
          var i :| 0 <= i < |schemas| && key in KeySet(Props(schemas[i]));
          assert i > 0 && rest[i - 1] == schemas[i];
        }
        if exists i :: 0 <= i < |rest| && key in KeySet(Props(rest[i])) {
          var i :| 0 <= i < |rest| && key in KeySet(Props(rest[i]));
          assert schemas[i + 1] == rest[i];
        }
      }
    }
  }

  lemma {:induction false} ValuesForHead(schemas: seq<TypeDef>, key: string)
    ensures ValuesFor(schemas, key) != [] ==>
      exists i :: (0 <= i < |schemas| && key in KeySet(Props(schemas[i]))
        && (forall i' :: 0 <= i' < i ==> key !in KeySet(Props(schemas[i'])))
        && Get(Props(schemas[i]), key) == Some(ValuesFor(schemas, key)[0]))
  {
    if schemas != [] {
      var rest := schemas[1..];
      var g := Get(Props(schemas[0]), key);
      if g.Some? {
        assert ValuesFor(schemas, key)[0] == g.value;
      } else if ValuesFor(rest, key) != [] {
        assert ValuesFor(schemas, key) == ValuesFor(rest, key);
        ValuesForHead(rest, key);
        var i :| 0 <= i < |rest| && key in KeySet(Props(rest[i]))
          && (forall i' :: 0 <= i' < i ==> key !in KeySet(Props(rest[i'])))
          && Get(Props(rest[i]), key) == Some(ValuesFor(rest, key)[0]);
        FirstDefShift(schemas, key, i, ValuesFor(rest, key)[0]);
      }
    }
  }

  /** A first definition in the tail is the first one overall when the head lacks the key. */
  lemma FirstDefShift(schemas: seq<TypeDef>, key: string, i: nat, d: TypeDef)
    requires schemas != [] && key !in KeySet(Props(schemas[0]))
    requires i < |schemas| - 1 && key in KeySet(Props(schemas[1..][i]))
    requires forall i' :: 0 <= i' < i ==> key !in KeySet(Props(schemas[1..][i']))
    requires Get(Props(schemas[1..][i]), key) == Some(d)
    ensures key in KeySet(Props(schemas[i + 1])) && Get(Props(schemas[i + 1]), key) == Some(d)
    ensures forall i' :: 0 <= i' < i + 1 ==> key !in KeySet(Props(schemas[i']))
  {
    assert schemas[i + 1] == schemas[1..][i];
    forall i' | 0 <= i' < i + 1 ensures key !in KeySet(Props(schemas[i'])) {
      if i' > 0 { assert schemas[i'] == schemas[1..][i' - 1]; }
    }
  }

  /** Every key of `keys` has a definition, and `p` holds its merged entry, in the order of `keys`. */
  predicate FoldShape(schemas: seq<TypeDef>, keys: seq<string>, p: Record<TypeDef>)
  {
    && |p| == |keys|
    && forall i :: 0 <= i < |keys| ==>
         ValuesFor(schemas, keys[i]) != [] && p[i] == (keys[i], MergedDef(schemas, keys[i]))
  }

  /** With distinct keys that all have a definition, the loop appends one merged entry per key. */
  lemma {:induction false} MergeFoldEntries(schemas: seq<TypeDef>, keys: seq<string>)
    requires forall i, j :: 0 <= i < j < |keys| ==> keys[i] != keys[j]
    requires forall i :: 0 <= i < |keys| ==> ValuesFor(schemas, keys[i]) != []
    ensures FoldShape(schemas, keys, MergeFold(schemas, keys))
  {
    if keys != [] {
      var init := keys[..|keys| - 1];
      var key := keys[|keys| - 1];
      assert forall i :: 0 <= i < |init| ==> init[i] == keys[i];
      MergeFoldEntries(schemas, init);
      var p := MergeFold(schemas, init);
      var d := MergedDef(schemas, key);
      FoldShapeSnoc(schemas, keys, p);
      assert MergeFold(schemas, keys) == p + [(key, d)] by {
        assert ValuesFor(schemas, key) != [];
        assert MergeFold(schemas, keys) == Put(p, key, d);
      }
    }
  }

  /** The step of `MergeFoldEntries`: a key not seen before is appended with its merged definition. */
  lemma FoldShapeSnoc(schemas: seq<TypeDef>, keys: seq<string>, p: Record<TypeDef>)
    requires keys != [] && forall i, j :: 0 <= i < j < |keys| ==> keys[i] != keys[j]
    requires FoldShape(schemas, keys[..|keys| - 1], p)
    requires ValuesFor(schemas, keys[|keys| - 1]) != []
    ensures keys[|keys| - 1] !in KeySet(p)
    ensures FoldShape(schemas, keys, p + [(keys[|keys| - 1], MergedDef(schemas, keys[|keys| - 1]))])
  {
    var init := keys[..|keys| - 1];
    var key := keys[|keys| - 1];
    forall m | 0 <= m < |p| ensures Keys(p)[m] != key {
      assert p[m].0 == init[m] == keys[m];
    }
    var q := p + [(key, MergedDef(schemas, key))];
    forall i | 0 <= i < |keys| ensures ValuesFor(schemas, keys[i]) != [] && q[i] == (keys[i], MergedDef(schemas, keys[i])) {
      if i < |init| {
        assert q[i] == p[i] && keys[i] == init[i];
      }
    }
  }

  /** The merged properties: one entry per collected key, in collection order. */
  lemma MergedPropsShape(schemas: seq<TypeDef>)
    ensures Keys(MergedProps(schemas)) == AllKeys(schemas)
    ensures forall j :: 0 <= j < |AllKeys(schemas)| ==>
      ValuesFor(schemas, AllKeys(schemas)[j]) != [] &&
      MergedProps(schemas)[j] == (AllKeys(schemas)[j], MergedDef(schemas, AllKeys(schemas)[j]))
  {
    var keys := AllKeys(schemas);
    forall i | 0 <= i < |keys| ensures ValuesFor(schemas, keys[i]) != [] {
      KeyConcatMembers(schemas, keys[i]);
      ValuesForFirst(schemas, keys[i]);
    }
    MergeFoldEntries(schemas, keys);
  }

  /** What an object or a null element contributes to the merge. */
  lemma SampledNode(elems: seq<Json>, i: nat)
    requires i < Ast.Min(|elems|, SampleSize)
    requires elems[i].JObj? || elems[i] == JNull
    ensures var s := Sample(JArr(elems))[i];
      && s == TypeDefOf(elems[i])
      && (elems[i].JObj? ==> s.tag == "object" && s.properties.Present? && KeySet(Props(s)) == KeySet(elems[i].fields))
      && (elems[i] == JNull ==> s.tag == "null" && s.properties.Absent? && KeySet(Props(s)) == {})
  {
    if elems[i].JObj? {
      ObjectNode(elems[i]);
    } else {
      assert Keys(Props(TypeDefOf(elems[i]))) == [];
    }
  }

  /** The definitions stored for an object's keys are inferred nodes, never optional ones. */
  lemma PropsNotOptional(v: Json, k: string)
    requires v.JObj? && Get(Props(TypeDefOf(v)), k).Some?
    ensures !Get(Props(TypeDefOf(v)), k).value.isOptional
  {
    var es := PropEntries(v);
    var r := PutAll([], es);
    var d := Get(r, k).value;
    var idx :| 0 <= idx < |r| && r[idx] == (k, d);
    PutAllValues([], es, idx);
    var j :| 0 <= j < |es| && es[j] == r[idx];
    TypeDefOfNotOptional(v.fields[j].1);
  }

  /** Within the sample, having the key in the node is having it in the element. */
  lemma SampledKey(elems: seq<Json>, i: nat, key: string)
    requires i < Ast.Min(|elems|, SampleSize)
    requires elems[i].JObj? || elems[i] == JNull
    ensures var s := Sample(JArr(elems))[i];
      && (key in KeySet(Props(s)) <==> elems[i].JObj? && key in KeySet(elems[i].fields))
      && (s.properties.Present? && key !in KeySet(s.properties.entries)
          <==> elems[i].JObj? && key !in KeySet(elems[i].fields))
  {
    SampledNode(elems, i);
  }

  /** The array node the merge builds, with its merged properties. */
  lemma ObjectArrayNode(elems: seq<Json>)
    requires |elems| > 0
    requires forall i :: 0 <= i < Ast.Min(|elems|, SampleSize) ==> elems[i].JObj? || elems[i] == JNull
    requires exists i :: 0 <= i < Ast.Min(|elems|, SampleSize) && elems[i].JObj?
    ensures ArrayDef(JArr(elems))
         == TypeDef("object[]", false, Absent, Some(TypeDef("object", false, Present(MergedProps(Sample(JArr(elems)))), None)))
  {
    var schemas := Sample(JArr(elems));
    var i0 :| 0 <= i0 < |schemas| && elems[i0].JObj?;
    SampledNode(elems, i0);
    assert !Uniform(schemas);
    assert ObjectsOrNulls(schemas) by {
      forall i | 0 <= i < |schemas| ensures schemas[i].tag == "object" || schemas[i].tag == "null" {
        SampledNode(elems, i);
      }
    }
  }

  /** The merged keys are distinct, and they are the keys of the sampled objects. */
  lemma MergedKeys(elems: seq<Json>, props: Record<TypeDef>)
    requires forall i :: 0 <= i < Ast.Min(|elems|, SampleSize) ==> elems[i].JObj? || elems[i] == JNull
    requires props == MergedProps(Sample(JArr(elems)))
    ensures forall a, b :: 0 <= a < b < |props| ==> props[a].0 != props[b].0
    ensures forall k :: k in Keys(props) <==>
      exists i :: 0 <= i < Ast.Min(|elems|, SampleSize) && elems[i].JObj? && k in KeySet(elems[i].fields)
  {
    var schemas := Sample(JArr(elems));
    var n := |schemas|;
    MergedPropsShape(schemas);
    forall a, b | 0 <= a < b < |props| ensures props[a].0 != props[b].0 {
      assert props[a].0 == AllKeys(schemas)[a] && props[b].0 == AllKeys(schemas)[b];
    }
    forall k ensures k in Keys(props) <==> exists i :: 0 <= i < n && elems[i].JObj? && k in KeySet(elems[i].fields) {
      KeyConcatMembers(schemas, k);
      forall i | 0 <= i < n ensures k in KeySet(Props(schemas[i])) <==> elems[i].JObj? && k in KeySet(elems[i].fields) {
        SampledKey(elems, i, k);
      }
    }
  }

  /** A merged key is optional exactly when some sampled object lacks it; nulls never count. */
  lemma MergedOptional(elems: seq<Json>, props: Record<TypeDef>, j: nat)
    requires forall i :: 0 <= i < Ast.Min(|elems|, SampleSize) ==> elems[i].JObj? || elems[i] == JNull
    requires props == MergedProps(Sample(JArr(elems))) && j < |props|
    ensures props[j].1.isOptional <==>
      exists i :: 0 <= i < Ast.Min(|elems|, SampleSize) && elems[i].JObj? && props[j].0 !in KeySet(elems[i].fields)
  {
    var schemas := Sample(JArr(elems));
    MergedPropsShape(schemas);
    var key := props[j].0;
    assert key == AllKeys(schemas)[j];
    assert props[j].1.isOptional == SomeLacks(schemas, key);
    forall i | 0 <= i < |schemas| ensures
      (schemas[i].properties.Present? && key !in KeySet(schemas[i].properties.entries))
      <==> elems[i].JObj? && key !in KeySet(elems[i].fields)
    {
      SampledKey(elems, i, key);
    }
  }

  /**
    What the merged properties of a sample of objects and nulls are: distinct
    keys, those of any sampled object, each optional exactly when some
    sampled object lacks it, and each defined as in the first sampled object
    that has it. Nulls contribute nothing and never make a key optional.
  */
  ghost predicate MergedFrom(elems: seq<Json>, props: Record<TypeDef>)
  {
    && DistinctNames(props)
    && KeysFrom(elems, props)
    && OptionalFrom(elems, props)
    && FirstFrom(elems, props)
  }

  ghost predicate DistinctNames(props: Record<TypeDef>)
  {
    forall a, b :: 0 <= a < b < |props| ==> props[a].0 != props[b].0
  }

  ghost predicate KeysFrom(elems: seq<Json>, props: Record<TypeDef>)
  {
    var n := Ast.Min(|elems|, SampleSize);
    forall k :: k in Keys(props) <==> exists i :: 0 <= i < n && elems[i].JObj? && k in KeySet(elems[i].fields)
  }

  ghost predicate OptionalFrom(elems: seq<Json>, props: Record<TypeDef>)
  {
    var n := Ast.Min(|elems|, SampleSize);
    forall j :: 0 <= j < |props| ==>
      (props[j].1.isOptional <==> exists i :: 0 <= i < n && elems[i].JObj? && props[j].0 !in KeySet(elems[i].fields))
  }

  ghost predicate FirstFrom(elems: seq<Json>, props: Record<TypeDef>)
  {
    forall j :: 0 <= j < |props| ==> FirstAt(elems, props, j)
  }

  /** The `j`-th definition is the one of the first sampled object that has the key, with only `isOptional` replaced. */
  ghost predicate FirstAt(elems: seq<Json>, props: Record<TypeDef>, j: nat)
    requires j < |props|
  {
    exists i :: (0 <= i < Ast.Min(|elems|, SampleSize) && elems[i].JObj? && props[j].0 in KeySet(elems[i].fields)
      && (forall i' :: 0 <= i' < i ==> !(elems[i'].JObj? && props[j].0 in KeySet(elems[i'].fields)))
      && Get(Props(TypeDefOf(elems[i])), props[j].0) == Some(props[j].1.(isOptional := false)))
  }

  /**
    An array whose sampled elements are objects or nulls, at least one an
    object, is "object[]" over one merged "object" node whose properties
    are `MergedFrom` the sample.
  */
  lemma ObjectArray(elems: seq<Json>)
    requires |elems| > 0
    requires forall i :: 0 <= i < Ast.Min(|elems|, SampleSize) ==> elems[i].JObj? || elems[i] == JNull
    requires exists i :: 0 <= i < Ast.Min(|elems|, SampleSize) && elems[i].JObj?
    ensures var t := ArrayDef(JArr(elems));
      && t.tag == "object[]" && !t.isOptional && t.properties.Absent? && t.items.Some?
      && t.items.value.tag == "object" && t.items.value.properties.Present?
      && MergedFrom(elems, t.items.value.properties.entries)
  {
    ObjectArrayNode(elems);
    MergedSample(elems);
  }

  lemma MergedSample(elems: seq<Json>)
    requires forall i :: 0 <= i < Ast.Min(|elems|, SampleSize) ==> elems[i].JObj? || elems[i] == JNull
    ensures MergedFrom(elems, MergedProps(Sample(JArr(elems))))
  {
    var props := MergedProps(Sample(JArr(elems)));
    MergedKeys(elems, props);
    assert DistinctNames(props) && KeysFrom(elems, props);
    MergedOptionalAll(elems, props);
    MergedFirstAll(elems, props);
  }

  lemma MergedOptionalAll(elems: seq<Json>, props: Record<TypeDef>)
    requires forall i :: 0 <= i < Ast.Min(|elems|, SampleSize) ==> elems[i].JObj? || elems[i] == JNull
    requires props == MergedProps(Sample(JArr(elems)))
    ensures OptionalFrom(elems, props)
  {
    forall j | 0 <= j < |props|
      ensures props[j].1.isOptional <==>
        exists i :: 0 <= i < Ast.Min(|elems|, SampleSize) && elems[i].JObj? && props[j].0 !in KeySet(elems[i].fields)
    {
      MergedOptional(elems, props, j);
    }
  }

  lemma MergedFirstAll(elems: seq<Json>, props: Record<TypeDef>)
    requires forall i :: 0 <= i < Ast.Min(|elems|, SampleSize) ==> elems[i].JObj? || elems[i] == JNull
    requires props == MergedProps(Sample(JArr(elems)))
    ensures FirstFrom(elems, props)
  {
    forall j | 0 <= j < |props| ensures FirstAt(elems, props, j) {
      MergedFirst(elems, props, j);
    }
  }

  /** The `j`-th merged definition is the first sampled object's, with only `isOptional` replaced. */
  lemma MergedFirst(elems: seq<Json>, props: Record<TypeDef>, j: nat)
    requires forall i :: 0 <= i < Ast.Min(|elems|, SampleSize) ==> elems[i].JObj? || elems[i] == JNull
    requires props == MergedProps(Sample(JArr(elems))) && j < |props|
    ensures FirstAt(elems, props, j)
  {
    var schemas := Sample(JArr(elems));
    MergedPropsShape(schemas);
    assert props[j] == (AllKeys(schemas)[j], MergedDef(schemas, AllKeys(schemas)[j]));
    FirstDefinition(elems, schemas, props[j].0, props[j].1);
  }

  lemma FirstDefinition(elems: seq<Json>, schemas: seq<TypeDef>, key: string, d: TypeDef)
    requires |elems| > 0 && schemas == Sample(JArr(elems))
    requires forall i :: 0 <= i < |schemas| ==> elems[i].JObj? || elems[i] == JNull
    requires ValuesFor(schemas, key) != [] && d == MergedDef(schemas, key)
    ensures exists i :: (0 <= i < |schemas| && elems[i].JObj? && key in KeySet(elems[i].fields)
              && (forall i' :: 0 <= i' < i ==> !(elems[i'].JObj? && key in KeySet(elems[i'].fields)))
              && Get(Props(TypeDefOf(elems[i])), key) == Some(d.(isOptional := false)))
  {
    ValuesForFirst(schemas, key);
    var i :| 0 <= i < |schemas| && key in KeySet(Props(schemas[i]))
        && (forall i' :: 0 <= i' < i ==> key !in KeySet(Props(schemas[i'])))
        && Get(Props(schemas[i]), key) == Some(ValuesFor(schemas, key)[0]);
    var first := ValuesFor(schemas, key)[0];
    SampledKey(elems, i, key);
    assert schemas[i] == TypeDefOf(elems[i]);
    forall i' | 0 <= i' < i ensures !(elems[i'].JObj? && key in KeySet(elems[i'].fields)) {
      SampledKey(elems, i', key);
    }
    PropsNotOptional(elems[i], key);
    assert !first.isOptional;
    assert d.(isOptional := false) == first;
    assert elems[i].JObj? && key in KeySet(elems[i].fields);
  }

  /*
   * Rendering
   */

  /** The type text of a node, which depends only on the node and its name. */
  function TypeName(node: TypeDef, name: string): string
  {
    if IsArrayTag(node.tag) then
      if node.items.Some? && node.items.value.tag == "object" then TypeName(node.items.value, Singular(name)) + "[]"
      else node.tag
    else if node.tag == "object" && node.properties.Present? then Capitalize(name)
    else node.tag
  }

  /**
    The text `traverse` returns never depends on the interfaces emitted
    before: names are not deduplicated, so a repeated name is simply reused.
  */
  lemma {:induction false} TraversalName(node: TypeDef, name: string, m: Record<string>)
    ensures Traversal(node, name, m).0 == TypeName(node, name)
    decreases node
  {
    if IsArrayTag(node.tag) && node.items.Some? && node.items.value.tag == "object" {
      TraversalName(node.items.value, Singular(name), m);
    }
  }

  /** An array of objects is named after the singular of its key, with `[]`; any other array keeps its tag. */
  lemma ArrayName(node: TypeDef, name: string)
    requires IsArrayTag(node.tag)
    ensures node.items.Some? && node.items.value.tag == "object" && node.items.value.properties.Present?
      ==> TypeName(node, name) == Capitalize(Singular(name)) + "[]"
    ensures !(node.items.Some? && node.items.value.tag == "object") ==> TypeName(node, name) == node.tag
  {
    if node.items.Some? && node.items.value.tag == "object" {
      assert !IsArrayTag(node.items.value.tag) by {
        assert node.items.value.tag[|node.items.value.tag| - 2..] == "ct";
      }
    }
  }

  /** Arrays and leaves emit no interface of their own; only object nodes inside them do. */
  lemma NonObjectKeepsMap(node: TypeDef, name: string, m: Record<string>)
    requires !(IsArrayTag(node.tag) && node.items.Some? && node.items.value.tag == "object")
    requires !(node.tag == "object" && node.properties.Present?)
    ensures Traversal(node, name, m) == (node.tag, m)
  {
  }

  /** The `i`-th and later member lines: one per property, each with its key, marker and type text. */
  lemma {:induction false} TraversalPropsLines(node: TypeDef, i: nat, m: Record<string>)
    requires node.properties.Present? && i <= |node.properties.entries|
    ensures var props := node.properties.entries;
      var lines := TraversalProps(node, i, m).0;
      && |lines| == |props| - i
      && forall j :: 0 <= j < |lines| ==> lines[j] == Line(props[i + j].0, props[i + j].1, TypeName(props[i + j].1, props[i + j].0))
    decreases |node.properties.entries| - i
  {
    var props := node.properties.entries;
    if i < |props| {
      var (key, def) := props[i];
      var (t, m1) := Traversal(def, key, m);
      TraversalName(def, key, m);
      TraversalPropsLines(node, i + 1, m1);
      var rest := TraversalProps(node, i + 1, m1).0;
      var lines := [Line(key, def, t)] + rest;
      assert TraversalProps(node, i, m).0 == lines;
      forall j | 0 <= j < |lines|
        ensures lines[j] == Line(props[i + j].0, props[i + j].1, TypeName(props[i + j].1, props[i + j].0))
      {
        if j == 0 {
          assert lines[0] == Line(key, def, t) && t == TypeName(def, key);
        } else {
          assert lines[j] == rest[j - 1] && i + 1 + (j - 1) == i + j;
        }
      }
    }
  }

  /**
    An object node is named by its capitalized name, and `interfaces` then
    maps that name to its block: one line per property, in property order.
  */
  lemma ObjectInterface(node: TypeDef, name: string, m: Record<string>)
    requires node.tag == "object" && node.properties.Present?
    ensures var props := node.properties.entries;
      var iname := Capitalize(name);
      var lines := TraversalProps(node, 0, m).0;
      && Traversal(node, name, m).0 == iname
      && Get(Traversal(node, name, m).1, iname) == Some(Block(iname, lines))
      && |lines| == |props|
      && forall j :: 0 <= j < |props| ==> lines[j] == Line(props[j].0, props[j].1, TypeName(props[j].1, props[j].0))
  {
    var props := node.properties.entries;
    var iname := Capitalize(name);
    var lines, m' := TraversalProps(node, 0, m).0, TraversalProps(node, 0, m).1;
    assert Traversal(node, name, m) == (iname, Put(m', iname, Block(iname, lines))) by {
      assert !IsArrayTag(node.tag) by { assert node.tag[4..] == "ct"; }
    }
    assert |lines| == |props| && forall j :: 0 <= j < |props| ==> lines[j] == Line(props[j].0, props[j].1, TypeName(props[j].1, props[j].0)) by {
      TraversalPropsLines(node, 0, m);
    }
  }

  /** A member line starts with two spaces and the key, then `?` exactly when the member is optional. */
  lemma LineShape(key: string, def: TypeDef, t: string)
    ensures var line := Line(key, def, t);
      && line[..2 + |key|] == "  " + key
      && (line[2 + |key|] == '?' <==> def.isOptional)
      && line[|line| - 2..] == ";\n"
  {
  }

  lemma PutKeeps(m: Record<string>, k: string, v: string)
    ensures Keys(m) <= Keys(Put(m, k, v))
  {
    if k !in KeySet(m) {
      assert Keys(m + [(k, v)]) == Keys(m) + [k];
    }
  }

  /**
    `interfaces` only grows: the names already there keep their places
    (a repeated name overwrites its block where it stands, as `Map.set`
    does), and the names stay distinct.
  */
  lemma {:induction false} TraversalKeeps(node: TypeDef, name: string, m: Record<string>)
    ensures Keys(m) <= Keys(Traversal(node, name, m).1)
    ensures DistinctKeys(m) ==> DistinctKeys(Traversal(node, name, m).1)
    decreases node, 1
  {
    if IsArrayTag(node.tag) {
      if node.items.Some? && node.items.value.tag == "object" {
        TraversalKeeps(node.items.value, Singular(name), m);
      }
    } else if node.tag == "object" && node.properties.Present? {
      var iname := Capitalize(name);
      var (lines, m') := TraversalProps(node, 0, m);
      TraversalPropsKeeps(node, 0, m);
      PutKeeps(m', iname, Block(iname, lines));
    }
  }

  lemma {:induction false} TraversalPropsKeeps(node: TypeDef, i: nat, m: Record<string>)
    requires node.properties.Present? && i <= |node.properties.entries|
    ensures Keys(m) <= Keys(TraversalProps(node, i, m).1)
    ensures DistinctKeys(m) ==> DistinctKeys(TraversalProps(node, i, m).1)
    decreases node, 0, |node.properties.entries| - i
  {
    var props := node.properties.entries;
    if i < |props| {
      var (key, def) := props[i];
      assert props[i] in props;
      var (t, m1) := Traversal(def, key, m);
      TraversalKeeps(def, key, m);
      TraversalPropsKeeps(node, i + 1, m1);
    }
  }

  /**
    For an object root, `interfaces` ends with the root's block under the
    capitalized root name. When no nested interface took that name first,
    the root's block is the last one added, so after the reversal it opens
    the output; when one did, the root's block replaces it in place and no
    new interface is added.
  */
  lemma RootFirst(data: Json, rootName: string)
    requires data.JObj?
    ensures TypeDefOf(data).properties.Present?
    ensures var node := TypeDefOf(data);
      var iname := Capitalize(rootName);
      var nested := TraversalProps(node, 0, []);
      var final := Traversal(node, rootName, []).1;
      && Get(final, iname) == Some(Block(iname, nested.0))
      && (iname !in KeySet(nested.1) ==>
            && |final| == |nested.1| + 1
            && Block(iname, nested.0) <= GenerateTsSpec(Some(data), rootName))
      && (iname in KeySet(nested.1) ==> Keys(final) == Keys(nested.1))
  {
    var node := TypeDefOf(data);
    ObjectNode(data);
    ObjectInterface(node, rootName, []);
    var iname := Capitalize(rootName);
    var nested := TraversalProps(node, 0, []);
    var b := Block(iname, nested.0);
    assert !IsArrayTag(node.tag) by { assert node.tag[4..] == "ct"; }
    var final := Traversal(node, rootName, []).1;
    assert final == Put(nested.1, iname, b);
    if iname !in KeySet(nested.1) {
      var parts := Reverse(Values(final));
      assert parts[0] == Values(final)[|final| - 1] == b;
      JoinStartsWithFirst(parts, "\n\n");
    }
  }

  /** Input that does not parse yields the sentinel; a scalar root, or an array of anything but objects, yields no interface at all. */
  lemma GenerateTsEmpty(json: Option<Json>, rootName: string)
    ensures json.None? ==> GenerateTsSpec(json, rootName) == "// Invalid JSON"
    ensures json.Some? && !json.value.JObj? && !json.value.JArr? ==> GenerateTsSpec(json, rootName) == ""
    ensures json.Some? && json.value.JArr? && TypeDefOf(json.value).items.None? ==> GenerateTsSpec(json, rootName) == ""
  {
    if json.Some? && !json.value.JObj? {
      var node := TypeDefOf(json.value);
      if json.value.JArr? {
        ArrayDefAbsent(json.value);
      }
      if node.items.None? {
        assert Traversal(node, rootName, []) == (node.tag, []);
        NoBlocksNoText(Values([]));
      }
    }
  }

  /** An array's node never carries properties of its own. */
  lemma ArrayDefAbsent(v: Json)
    requires v.JArr?
    ensures TypeDefOf(v).properties.Absent?
  {
    assert TypeDefOf(v) == ArrayDef(v);
    if |v.elems| > 0 {
      assert ArrayDef(v) == ArrayOf(Sample(v));
    }
  }

  lemma NoBlocksNoText(vs: seq<string>)
    requires vs == []
    ensures Join(Reverse(vs), "\n\n") == ""
  {
    assert Reverse(vs) == [];
  }

}
