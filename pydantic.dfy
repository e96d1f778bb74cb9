/**
  The Pydantic model generator (lib/engine/pydantic.ts).

  `Infer` is the first-element-only inference of the source and
  `InferType` its recursive walk, whose object branch fills a `fields`
  record member by member. `Build` and `BuildFields` specify the
  `buildClasses` closure over the `classes` list and the `seenClasses` set;
  `PyEmitter` is that closure as a class.
*/
module PydanticGen {
  import opened Wrappers
  import opened JsonValue
  import opened Records
  import opened Text

  datatype PyType =
    | PStr | PInt | PFloat | PBool | PNone | PAny
    | PList(item: PyType)
    | POptional(item: PyType)
    | PClass(name: string, fields: Record<PyType>)

  /** `infer(data, name)`. */
  function Infer(data: Json, name: string): PyType
    decreases data, 1
  {
    match data
    case JNull => PNone
    case JArr(elems) => if |elems| == 0 then PList(PAny) else PList(Infer(elems[0], name + "Item"))
    case JObj(_) => PClass(Capitalize(name), PutAll([], InferredFields(data)))
    case JStr(_) => PStr
    case JBool(_) => PBool
    case JNum(isInt) => if isInt then PInt else PFloat
  }

  /** Each member of an object with its type, inferred under the capitalized key as name. */
  function InferredFields(data: Json): (es: Record<PyType>)
    requires data.JObj?
    ensures |es| == |data.fields|
    ensures forall i :: 0 <= i < |es| ==> es[i].0 == data.fields[i].0
    decreases data, 0
  {
    var fs := data.fields;
    seq(|fs|, i requires 0 <= i < |fs| => (fs[i].0, Infer(fs[i].1, Capitalize(fs[i].0))))
  }

  method InferType(data: Json, name: string) returns (t: PyType)
    ensures t == Infer(data, name)
    decreases data, 1
  {
    if data == JNull { return PNone; }
    if data.JArr? {
      if |data.elems| == 0 { return PList(PAny); }
      var item := InferType(data.elems[0], name + "Item");
      return PList(item);
    }
    if TypeOf(data) == "object" {
      t := InferClass(data, name);
      return;
    }
    if data.JStr? { return PStr; }
    if data.JBool? { return PBool; }
    return if data.isInt then PInt else PFloat;
  }

  /** The object branch: `fields[key] = infer(value, capitalize(key))` for each entry. */
  method InferClass(data: Json, name: string) returns (t: PyType)
    requires data.JObj?
    ensures t == Infer(data, name)
    decreases data, 0
  {
    var fields: Record<PyType> := [];
    ghost var spec := InferredFields(data);
    for i := 0 to |data.fields|
      invariant fields == PutAll([], spec[..i])
    {
      var (key, value) := data.fields[i];
      var v := InferType(value, Capitalize(key));
      PutAllStep(spec, i, fields, key, v);
      fields := Put(fields, key, v);
    }
    assert spec[..|data.fields|] == spec;
    return PClass(Capitalize(name), fields);
  }

  /** `renderType(t)`: the Python annotation of a type; a class is referred to by name. */
  function RenderType(t: PyType): string
  {
    match t
    case PList(item) => "List[" + RenderType(item) + "]"
    case POptional(item) => "Optional[" + RenderType(item) + "]"
    case PClass(name, _) => name
    case PStr => "str"
    case PInt => "int"
    case PFloat => "float"
    case PBool => "bool"
    case PNone => "None"
    case PAny => "Any"
  }

  /** One `    key: type` line per field, keys as they are. */
  function FieldLines(fields: Record<PyType>): (lines: seq<string>)
    ensures |lines| == |fields|
  {
    seq(|fields|, i requires 0 <= i < |fields| => "    " + fields[i].0 + ": " + RenderType(fields[i].1))
  }

  /** The class definition pushed for a class type. */
  function ClassText(name: string, fields: Record<PyType>): string
  {
    var body := Join(FieldLines(fields), "\n");
    "class " + name + "(BaseModel):\n" + (if body == "" then "    pass" else body)
  }

  /**
    What `buildClasses` has done so far: the `classes` list, the
    `seenClasses` set, and (for the proofs) the name and fields of each
    pushed class, in push order.
  */
  datatype PyState = PyState(classes: seq<string>, seen: set<string>, defs: Record<Record<PyType>>)

  const Start := PyState([], {}, [])

  /** `buildClasses(t)`: children first, then the class itself unless its name was seen. */
  function Build(t: PyType, st: PyState): PyState
    decreases t, 1
  {
    match t
    case PList(item) => Build(item, st)
    case PClass(name, fields) =>
      var st' := BuildFields(t, 0, st);
      if name in st'.seen then st'
      else PyState(st'.classes + [ClassText(name, fields)], st'.seen + {name}, st'.defs + [(name, fields)])
    case _ => st
  }

  /** `Object.values(t.fields).forEach(buildClasses)` from the `i`-th field on. */
  function BuildFields(t: PyType, i: nat, st: PyState): PyState
    requires t.PClass? && i <= |t.fields|
    decreases t, 0, |t.fields| - i
  {
    if i == |t.fields| then st else BuildFields(t, i + 1, Build(t.fields[i].1, st))
  }

  const Header := "from typing import List, Optional, Any\nfrom pydantic import BaseModel\n\n"

  /** `jsonToPydantic(json, rootName)`, with a failed parse as `None`. */
  function Pydantic(json: Option<Json>, rootName: string): string
  {
    match json
    case None => "# Invalid JSON"
    case Some(data) => Header + Join(Build(Infer(data, rootName), Start).classes, "\n\n")
  }

  /** The `buildClasses` closure over `classes` and `seenClasses`. */
  class PyEmitter {
    var classes: seq<string>
    var seenClasses: set<string>
    ghost var defs: Record<Record<PyType>>

    ghost function State(): PyState
      reads this
    {
      PyState(classes, seenClasses, defs)
    }

    constructor()
      ensures State() == Start
    {
      classes := [];
      seenClasses := {};
      defs := [];
    }

    method BuildClasses(t: PyType)
      modifies this
      ensures State() == Build(t, old(State()))
      decreases t, 1
    {
      if t.PList? {
        BuildClasses(t.item);
      } else if t.PClass? {
        BuildFieldClasses(t);
        if t.name in seenClasses {
          return;
        }
        seenClasses := seenClasses + {t.name};
        classes := classes + [ClassText(t.name, t.fields)];
        defs := defs + [(t.name, t.fields)];
      }
    }

    method BuildFieldClasses(t: PyType)
      requires t.PClass?
      modifies this
      ensures State() == BuildFields(t, 0, old(State()))
      decreases t, 0
    {
      ghost var total := BuildFields(t, 0, State());
      for i := 0 to |t.fields|
        invariant BuildFields(t, i, State()) == total
      {
        BuildClasses(t.fields[i].1);
      }
    }
  }

  method JsonToPydantic(json: Option<Json>, rootName: string) returns (out: string)
    ensures out == Pydantic(json, rootName)
  {
    if json.None? {
      return "# Invalid JSON";
    }
    var schema := InferType(json.value, rootName);
    var emitter := new PyEmitter();
    emitter.BuildClasses(schema);
    out := Header + Join(emitter.classes, "\n\n");
  }
}

/** What the Pydantic generator promises. */
module PydanticProperties {
  import opened Wrappers
  import opened JsonValue
  import opened Records
  import opened Text
  import opened PydanticGen

  /** Primitives: `None`, `str`, `bool`, and `int` or `float` by `Number.isInteger`. */
  lemma InferPrimitive(data: Json, name: string)
    ensures data == JNull ==> RenderType(Infer(data, name)) == "None"
    ensures data.JStr? ==> RenderType(Infer(data, name)) == "str"
    ensures data.JBool? ==> RenderType(Infer(data, name)) == "bool"
    ensures data.JNum? ==> (RenderType(Infer(data, name)) == "int" <==> data.isInt)
    ensures data.JNum? ==> (RenderType(Infer(data, name)) == "float" <==> !data.isInt)
  {
  }

  /** An empty array is `List[Any]`; otherwise only element 0 decides the item type. */
  lemma InferArray(a: seq<Json>, b: seq<Json>, name: string)
    ensures Infer(JArr([]), name) == PList(PAny)
    ensures |a| > 0 && |b| > 0 && a[0] == b[0] ==> Infer(JArr(a), name) == Infer(JArr(b), name)
    ensures |a| > 0 ==> RenderType(Infer(JArr(a), name)) == "List[" + RenderType(Infer(a[0], name + "Item")) + "]"
  {
  }

  /**
    An object with distinct keys gives a class named after the capitalized
    name, with its keys as fields in order, each field's class named after
    its capitalized key.
  */
  lemma InferObject(fields: Record<Json>, name: string)
    requires DistinctKeys(fields)
    ensures var t := Infer(JObj(fields), name);
      && t.PClass? && t.name == Capitalize(name)
      && t.fields == InferredFields(JObj(fields))
      && Keys(t.fields) == Keys(fields)
  {
    var es := InferredFields(JObj(fields));
    DistinctKeysAgree(es, fields);
    assert Infer(JObj(fields), name) == PClass(Capitalize(name), PutAll([], es));
    PutAllEmpty(es);
    KeysAgree(es, fields);
  }

  /** The type refers to no class anywhere. */
  predicate ClassFree(t: PyType)
  {
    match t
    case PClass(_, _) => false
    case PList(x) => ClassFree(x)
    case POptional(x) => ClassFree(x)
    case _ => true
  }

  /** The first character of an annotation tells which kind of type it is. */
  function Lead(t: PyType): char
  {
    match t
    case PList(_) => 'L'
    case POptional(_) => 'O'
    case PClass(_, _) => 'C'
    case PStr => 's'
    case PInt => 'i'
    case PFloat => 'f'
    case PBool => 'b'
    case PNone => 'N'
    case PAny => 'A'
  }

  /**
    The annotation of a class is its name, whatever its fields. A list or
    an `Optional` wraps the item's annotation, which can be read back.
  */
  lemma RenderTypeShape(t: PyType)
    ensures t.PClass? ==> RenderType(t) == t.name
    ensures !t.PClass? ==> |RenderType(t)| > 0 && RenderType(t)[0] == Lead(t)
    ensures t.PList? ==> var r := RenderType(t);
      "List[" <= r && r[|r| - 1] == ']' && r[5..|r| - 1] == RenderType(t.item)
    ensures t.POptional? ==> var r := RenderType(t);
      "Optional[" <= r && r[|r| - 1] == ']' && r[9..|r| - 1] == RenderType(t.item)
  {
    var r := RenderType(t);
    if t.PList? {
      assert r == "List[" + RenderType(t.item) + "]";
      assert r[5..|r| - 1] == RenderType(t.item);
    } else if t.POptional? {
      assert r == "Optional[" + RenderType(t.item) + "]";
      assert r[9..|r| - 1] == RenderType(t.item);
    }
  }

  /** Class-free types with the same annotation are the same type. */
  lemma {:induction false} RenderTypeInjective(t: PyType, u: PyType)
    requires ClassFree(t) && ClassFree(u)
    requires RenderType(t) == RenderType(u)
    ensures t == u
    decreases t
  {
    RenderTypeShape(t);
    RenderTypeShape(u);
    assert Lead(t) == Lead(u);
    if t.PList? || t.POptional? {
      RenderTypeInjective(t.item, u.item);
    }
  }

  /** The type contains no `Optional` node anywhere. */
  predicate NoOptional(t: PyType)
  {
    match t
    case POptional(_) => false
    case PList(x) => NoOptional(x)
    case PClass(_, fs) => forall i :: 0 <= i < |fs| ==> NoOptional(fs[i].1)
    case _ => true
  }

  /** `infer` never builds an `Optional`. */
  lemma {:induction false} InferNoOptional(data: Json, name: string)
    ensures NoOptional(Infer(data, name))
    decreases data
  {
    match data
    case JArr(elems) =>
      if |elems| > 0 { InferNoOptional(elems[0], name + "Item"); }
    case JObj(fields) =>
      var es := InferredFields(data);
      var p := PutAll([], es);
      forall i | 0 <= i < |p| ensures NoOptional(p[i].1) {
        PutAllValues([], es, i);
        var j :| 0 <= j < |es| && es[j] == p[i];
        InferNoOptional(fields[j].1, Capitalize(fields[j].0));
      }
    case _ =>
  }

  /*
   * Class emission
   */

  /** The class names `buildClasses` visits: through lists and class fields, not through `Optional`. */
  function Names(t: PyType): set<string>
    decreases t, 1
  {
    match t
    case PList(x) => Names(x)
    case PClass(n, _) => {n} + FieldNames(t, 0)
    case _ => {}
  }

  function FieldNames(t: PyType, i: nat): set<string>
    requires t.PClass? && i <= |t.fields|
    decreases t, 0, |t.fields| - i
  {
    if i == |t.fields| then {} else Names(t.fields[i].1) + FieldNames(t, i + 1)
  }

  /** The class names an annotation mentions, as `renderType` writes it. */
  function Refs(t: PyType): set<string>
  {
    match t
    case PList(x) => Refs(x)
    case POptional(x) => Refs(x)
    case PClass(n, _) => {n}
    case _ => {}
  }

  /** The class names the field annotations of a class mention. */
  function FieldRefs(fields: Record<PyType>): set<string>
  {
    set i, n | 0 <= i < |fields| && n in Refs(fields[i].1) :: n
  }

  /**
    What holds of the state `buildClasses` leaves: one pushed text per
    definition, the seen set is the set of pushed names, no name is pushed
    twice, and every class a pushed class mentions was pushed before it.
  */
  predicate Inv(st: PyState)
  {
    && |st.classes| == |st.defs|
    && (forall i :: 0 <= i < |st.defs| ==> st.classes[i] == ClassText(st.defs[i].0, st.defs[i].1))
    && DistinctKeys(st.defs)
    && st.seen == KeySet(st.defs)
    && (forall i :: 0 <= i < |st.defs| ==> FieldRefs(st.defs[i].1) <= KeySet(st.defs[..i]))
  }

  /** Classes are only ever appended. */
  predicate Grows(st0: PyState, st1: PyState)
  {
    st0.classes <= st1.classes && st0.defs <= st1.defs && st0.seen <= st1.seen
  }

  /** Building marks exactly the visited class names as seen. */
  lemma {:induction false} BuildSeen(t: PyType, st: PyState)
    ensures Build(t, st).seen == st.seen + Names(t)
    decreases t, 1
  {
    match t
    case PList(x) => BuildSeen(x, st);
    case PClass(n, _) => BuildFieldsSeen(t, 0, st);
    case _ =>
  }

  lemma {:induction false} BuildFieldsSeen(t: PyType, i: nat, st: PyState)
    requires t.PClass? && i <= |t.fields|
    ensures BuildFields(t, i, st).seen == st.seen + FieldNames(t, i)
    decreases t, 0, |t.fields| - i
  {
    if i < |t.fields| {
      BuildSeen(t.fields[i].1, st);
      BuildFieldsSeen(t, i + 1, Build(t.fields[i].1, st));
    }
  }

  /** Without `Optional`, every class an annotation mentions is visited. */
  lemma {:induction false} RefsVisited(t: PyType)
    requires NoOptional(t)
    ensures Refs(t) <= Names(t)
  {
    if t.PList? { RefsVisited(t.item); }
  }

  lemma {:induction false} FieldNamesContain(t: PyType, i: nat, j: nat)
    requires t.PClass? && i <= j < |t.fields|
    ensures Names(t.fields[j].1) <= FieldNames(t, i)
    decreases j - i
  {
    if i < j { FieldNamesContain(t, i + 1, j); }
  }

  lemma FieldRefsVisited(t: PyType)
    requires t.PClass? && NoOptional(t)
    ensures FieldRefs(t.fields) <= FieldNames(t, 0)
  {
    forall n | n in FieldRefs(t.fields) ensures n in FieldNames(t, 0) {
      var i :| 0 <= i < |t.fields| && n in Refs(t.fields[i].1);
      RefsVisited(t.fields[i].1);
      FieldNamesContain(t, 0, i);
    }
  }

  /** Pushing a new class whose mentioned classes are already seen keeps the invariant. */
  lemma Push(st: PyState, n: string, fs: Record<PyType>)
    requires Inv(st) && n !in st.seen && FieldRefs(fs) <= st.seen
    ensures var st' := PyState(st.classes + [ClassText(n, fs)], st.seen + {n}, st.defs + [(n, fs)]);
      Inv(st') && Grows(st, st')
  {
    var defs := st.defs + [(n, fs)];
    KeySetSnoc(st.defs, (n, fs));
    assert defs[..|st.defs|] == st.defs;
    forall i | 0 <= i < |st.defs| ensures defs[..i] == st.defs[..i] {
    }
    forall i | 0 <= i < |st.defs| ensures st.defs[i].0 != n {
      assert Keys(st.defs)[i] == st.defs[i].0;
    }
  }

  lemma {:induction false} BuildInv(t: PyType, st: PyState)
    requires Inv(st) && NoOptional(t)
    ensures Inv(Build(t, st)) && Grows(st, Build(t, st))
    decreases t, 1
  {
    match t
    case PList(x) => BuildInv(x, st);
    case PClass(n, fs) =>
      BuildFieldsInv(t, 0, st);
      var st' := BuildFields(t, 0, st);
      if n !in st'.seen {
        BuildFieldsSeen(t, 0, st);
        FieldRefsVisited(t);
        Push(st', n, fs);
      }
    case _ =>
  }

  lemma {:induction false} BuildFieldsInv(t: PyType, i: nat, st: PyState)
    requires t.PClass? && i <= |t.fields| && Inv(st) && NoOptional(t)
    ensures Inv(BuildFields(t, i, st)) && Grows(st, BuildFields(t, i, st))
    decreases t, 0, |t.fields| - i
  {
    if i < |t.fields| {
      BuildInv(t.fields[i].1, st);
      BuildFieldsInv(t, i + 1, Build(t.fields[i].1, st));
    }
  }

  /**
    The classes emitted for a parsed document: one per class name reached,
    no name twice, each the text of its definition, and every class an
    annotation mentions defined before the class that mentions it.
  */
  lemma PydanticClasses(data: Json, rootName: string)
    ensures var st := Build(Infer(data, rootName), Start);
      && Pydantic(Some(data), rootName) == Header + Join(st.classes, "\n\n")
      && |st.classes| == |st.defs|
      && KeySet(st.defs) == Names(Infer(data, rootName))
      && (forall i, j :: 0 <= i < j < |st.defs| ==> st.defs[i].0 != st.defs[j].0)
      && (forall i :: 0 <= i < |st.defs| ==> st.classes[i] == ClassText(st.defs[i].0, st.defs[i].1))
      && (forall i :: 0 <= i < |st.defs| ==> FieldRefs(st.defs[i].1) <= KeySet(st.defs[..i]))
  {
    var t := Infer(data, rootName);
    InferNoOptional(data, rootName);
    assert Keys(Start.defs) == [];
    BuildInv(t, Start);
    BuildSeen(t, Start);
  }

  /** The output holds no class exactly when the root reaches no object. */
  lemma PydanticHeaderOnly(data: Json, rootName: string)
    ensures Pydantic(Some(data), rootName) == Header <==> Names(Infer(data, rootName)) == {}
    ensures data.JObj? ==> Names(Infer(data, rootName)) != {}
  {
    var st := Build(Infer(data, rootName), Start);
    PydanticClasses(data, rootName);
    if st.classes == [] {
      assert st.defs == [];
      assert Keys(st.defs) == [];
      assert Join(st.classes, "\n\n") == "";
      assert Header + "" == Header;
    } else {
      assert Keys(st.defs)[0] in KeySet(st.defs);
      JoinStartsWithFirst(st.classes, "\n\n");
      assert "class " <= st.classes[0] by {
        assert st.classes[0] == ClassText(st.defs[0].0, st.defs[0].1);
      }
      assert |Header + Join(st.classes, "\n\n")| > |Header|;
    }
  }

  /** The root class comes last unless one of its descendants already took its name. */
  lemma RootLast(fields: Record<Json>, rootName: string)
    ensures var t := Infer(JObj(fields), rootName);
      var st := Build(t, Start);
      && (t.name !in FieldNames(t, 0) ==>
           |st.defs| > 0 && |st.classes| > 0 && st.defs[|st.defs| - 1] == (t.name, t.fields)
           && st.classes[|st.classes| - 1] == ClassText(t.name, t.fields))
      && (t.name in FieldNames(t, 0) ==> st == BuildFields(t, 0, Start))
  {
    var t := Infer(JObj(fields), rootName);
    BuildFieldsSeen(t, 0, Start);
  }

  /** A class without fields has the body `    pass`, any other one line per field. */
  lemma ClassTextShape(name: string, fields: Record<PyType>)
    ensures fields == [] ==> ClassText(name, fields) == "class " + name + "(BaseModel):\n    pass"
    ensures fields != [] ==>
      ClassText(name, fields) == "class " + name + "(BaseModel):\n" + Join(FieldLines(fields), "\n")
      && "class " + name + "(BaseModel):\n    " + fields[0].0 + ": " <= ClassText(name, fields)
  {
    if fields != [] {
      var lines := FieldLines(fields);
      JoinStartsWithFirst(lines, "\n");
      assert lines[0] == "    " + fields[0].0 + ": " + RenderType(fields[0].1);
      assert Join(lines, "\n") != "";
    }
  }

  lemma PydanticInvalid(rootName: string)
    ensures Pydantic(None, rootName) == "# Invalid JSON"
  {
  }

  /** Capitalizing twice changes nothing more. */
  lemma CapitalizeIdempotent(s: string)
    ensures Capitalize(Capitalize(s)) == Capitalize(s)
  {
    if s != "" {
      var c := Capitalize(s);
      assert c[0] == UpperAscii(s[0]);
      assert Capitalize(c) == [UpperAscii(c[0])] + c[1..];
      assert c == [c[0]] + c[1..];
    }
  }

  /**
    A member whose capitalized key is the root's class name takes that
    name first, so the root class itself is dropped: `{k: {a: 1}}` gives
    the single class of the inner object.
  */
  lemma ShadowedRoot(k: string, a: string, rootName: string)
    requires Capitalize(k) == Capitalize(rootName)
    ensures Pydantic(Some(JObj([(k, JObj([(a, JNum(true))]))])), rootName)
         == Header + ("class " + Capitalize(k) + "(BaseModel):\n    " + a + ": int")
  {
    var data := JObj([(k, JObj([(a, JNum(true))]))]);
    var text := ClassText(Capitalize(k), [(a, PInt)]);
    ShadowedRootState(k, a, rootName);
    ClassTextSingle(Capitalize(k), a);
    calc {
      Pydantic(Some(data), rootName);
      Header + Join(Build(Infer(data, rootName), Start).classes, "\n\n");
      Header + Join([text], "\n\n");
      Header + text;
    }
  }

  lemma ShadowedRootState(k: string, a: string, rootName: string)
    requires Capitalize(k) == Capitalize(rootName)
    ensures Build(Infer(JObj([(k, JObj([(a, JNum(true))]))]), rootName), Start).classes
         == [ClassText(Capitalize(k), [(a, PInt)])]
  {
    CapitalizeIdempotent(k);
    var innerData := JObj([(a, JNum(true))]);
    InferOneField(a, JNum(true), Capitalize(k));
    var inner := PClass(Capitalize(k), [(a, PInt)]);
    InferOneField(k, innerData, rootName);
    var outer := PClass(Capitalize(rootName), [(k, inner)]);
    BuildOneField(Capitalize(k), a, PInt, Start);
    BuildOneField(Capitalize(rootName), k, inner, Start);
  }

  lemma InferOneField(key: string, v: Json, name: string)
    ensures Infer(JObj([(key, v)]), name) == PClass(Capitalize(name), [(key, Infer(v, Capitalize(key)))])
  {
    var es := InferredFields(JObj([(key, v)]));
    assert es == [(key, Infer(v, Capitalize(key)))];
    assert PutAll([], es) == Put([], key, es[0].1);
  }

  lemma BuildOneField(n: string, key: string, u: PyType, st: PyState)
    ensures var st' := Build(u, st);
      Build(PClass(n, [(key, u)]), st)
        == if n in st'.seen then st'
           else PyState(st'.classes + [ClassText(n, [(key, u)])], st'.seen + {n}, st'.defs + [(n, [(key, u)])])
  {
    assert BuildFields(PClass(n, [(key, u)]), 0, st) == BuildFields(PClass(n, [(key, u)]), 1, Build(u, st));
  }

  lemma ClassTextSingle(c: string, a: string)
    ensures ClassText(c, [(a, PInt)]) == "class " + c + "(BaseModel):\n    " + a + ": int"
  {
    var line := "    " + a + ": " + RenderType(PInt);
    assert FieldLines([(a, PInt)]) == [line];
    assert line == "    " + a + ": int";
    assert line != "";
  }

  lemma ShadowText(c: string, a: string)
    requires c == "Root" && a == "a"
    ensures "class " + c + "(BaseModel):\n    " + a + ": int" == "class Root(BaseModel):\n    a: int"
  {
  }

  /** The same for the default root name: `{"root": {"a": 1}}` yields only `class Root` with field `a`. */
  lemma ShadowedRootExample(k: string, a: string, rootName: string)
    requires k == "root" && a == "a" && rootName == "Root"
    ensures Pydantic(Some(JObj([(k, JObj([(a, JNum(true))]))])), rootName)
         == Header + "class Root(BaseModel):\n    a: int"
  {
    var c := Capitalize(k);
    assert c == "Root" && Capitalize(rootName) == "Root";
    ShadowedRoot(k, a, rootName);
    ShadowText(c, a);
  }
}
