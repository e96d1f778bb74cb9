/**
  The first TypeScript transformer (lib/transformer.ts). `jsonToTs` walks
  the parsed value once, looks only at the first element of each array,
  and pushes one interface per object it visits, after the interfaces of
  that object's members.

  `Parse`, `Field` and `MemberLines` specify the `parse` closure; the class
  `TsParser` is that closure over its `interfaces` list.
*/
module TsTransformer {
  import opened Wrappers
  import opened JsonValue
  import opened Records
  import opened Text

  /** What `typeof` calls "object" other than `null`: an object or an array. */
  predicate IsComposite(v: Json)
  {
    v.JObj? || v.JArr?
  }

  /** `export interface ${name} {\n`, the member lines, then `}`. */
  function Block(name: string, lines: seq<string>): string
  {
    "export interface " + name + " {\n" + Concat(lines) + "}"
  }

  /** `parse(obj, name)`: the type text, and the interfaces pushed meanwhile, in push order. */
  function Parse(v: Json, name: string): (string, seq<string>)
    decreases v, 1
  {
    match v
    case JArr(elems) =>
      if elems != [] && IsComposite(elems[0]) then
        var singular := Singular(name);
        (singular + "[]", Parse(elems[0], singular).1)
      else (FirstTypeOf(elems) + "[]", [])
    case JObj(_) =>
      var (lines, pushed) := MemberLines(v, 0);
      (name, pushed + [Block(name, lines)])
    case _ => ("any", [])
  }

  /** The line one member adds to `output`, and the interfaces its value pushes. */
  function Field(key: string, value: Json): (string, seq<string>)
    decreases value, 2
  {
    if value == JNull then ("  " + key + ": null;\n", [])
    else if IsComposite(value) then
      var nestedName := Capitalize(key);
      var (nestedType, pushed) := Parse(value, nestedName);
      ("  " + key + ": " + (if value.JArr? then nestedType else nestedName) + ";\n", pushed)
    else ("  " + key + ": " + TypeOf(value) + ";\n", [])
  }

  /** The lines of the `i`-th and later visited members, and what they push. */
  function MemberLines(v: Json, i: nat): (seq<string>, seq<string>)
    requires v.JObj? && i <= |Members(v)|
    decreases v, 0, |Members(v)| - i
  {
    var ms := Members(v);
    if i == |ms| then ([], [])
    else
      MemberWritten(v, i);
      var (line, pushed) := Field(ms[i].0, ms[i].1);
      var (rest, later) := MemberLines(v, i + 1);
      ([line] + rest, pushed + later)
  }

  /** `jsonToTs(jsonStr, rootName)`, with a failed parse as `None`. */
  function TsOutput(json: Option<Json>, rootName: string): string
  {
    match json
    case None => ""
    case Some(data) => Join(Reverse(Parse(data, rootName).1), "\n\n")
  }

  /** The `parse` closure over the `interfaces` list it pushes to. */
  class TsParser {
    var interfaces: seq<string>

    constructor()
      ensures interfaces == []
    {
      interfaces := [];
    }

    method ParseValue(v: Json, name: string) returns (t: string)
      modifies this
      ensures t == Parse(v, name).0
      ensures interfaces == old(interfaces) + Parse(v, name).1
      decreases v, 1
    {
      if !IsComposite(v) {
        return "any";
      }
      if v.JArr? {
        if v.elems != [] && IsComposite(v.elems[0]) {
          var singularName := Singular(name);
          var _ := ParseValue(v.elems[0], singularName);
          return singularName + "[]";
        }
        return FirstTypeOf(v.elems) + "[]";
      }
      t := ParseObject(v, name);
    }

    /** The object branch of `parse`: one line per member, then the interface is pushed. */
    method ParseObject(v: Json, name: string) returns (t: string)
      requires v.JObj?
      modifies this
      ensures t == name
      ensures interfaces == old(interfaces) + MemberLines(v, 0).1 + [Block(name, MemberLines(v, 0).0)]
      decreases v, 0
    {
      var output := "export interface " + name + " {\n";
      ghost var header := output;
      ghost var start := interfaces;
      ghost var total := MemberLines(v, 0);
      var ms := Members(v);
      var i := 0;
      while i < |ms|
        invariant 0 <= i <= |ms|
        invariant header + Concat(total.0) == output + Concat(MemberLines(v, i).0)
        invariant start + total.1 == interfaces + MemberLines(v, i).1
      {
        MemberWritten(v, i);
        var (key, value) := ms[i];
        ghost var before := interfaces;
        var line := AddField(key, value);
        MemberLinesStep(v, i);
        AppendShift(output, line, Concat(MemberLines(v, i).0), Concat(MemberLines(v, i + 1).0));
        AppendShift(before, Field(key, value).1, MemberLines(v, i).1, MemberLines(v, i + 1).1);
        output := output + line;
        i := i + 1;
      }
      assert output == header + Concat(total.0);
      output := output + "}";
      interfaces := interfaces + [output];
      return name;
    }

    /** The `forEach` callback: the line for one member, after parsing its value when it is composite. */
    method AddField(key: string, value: Json) returns (line: string)
      modifies this
      ensures line == Field(key, value).0
      ensures interfaces == old(interfaces) + Field(key, value).1
      decreases value, 2
    {
      if value == JNull {
        line := "  " + key + ": null;\n";
      } else if IsComposite(value) {
        var nestedName := Capitalize(key);
        var nestedType := ParseValue(value, nestedName);
        line := "  " + key + ": " + (if value.JArr? then nestedType else nestedName) + ";\n";
      } else {
        line := "  " + key + ": " + TypeOf(value) + ";\n";
      }
    }
  }

  /** `MemberLines` unfolded once. */
  lemma MemberLinesUnfold(v: Json, i: nat)
    requires v.JObj? && i < |Members(v)|
    ensures var (key, value) := Members(v)[i];
      MemberLines(v, i) == ([Field(key, value).0] + MemberLines(v, i + 1).0, Field(key, value).1 + MemberLines(v, i + 1).1)
  {
  }

  /** One member of `MemberLines`: its line, then the rest. */
  lemma MemberLinesStep(v: Json, i: nat)
    requires v.JObj? && i < |Members(v)|
    ensures var (key, value) := Members(v)[i];
      && Concat(MemberLines(v, i).0) == Field(key, value).0 + Concat(MemberLines(v, i + 1).0)
      && MemberLines(v, i).1 == Field(key, value).1 + MemberLines(v, i + 1).1
  {
    var rest := MemberLines(v, i + 1).0;
    var (key, value) := Members(v)[i];
    assert ([Field(key, value).0] + rest)[1..] == rest;
  }

  /** `jsonToTs`: parse from the root, then join the reversed list. */
  method JsonToTs(json: Option<Json>, rootName: string) returns (out: string)
    ensures out == TsOutput(json, rootName)
  {
    if json.None? {
      return "";
    }
    var parser := new TsParser();
    var _ := parser.ParseValue(json.value, rootName);
    assert parser.interfaces == Parse(json.value, rootName).1;
    out := Join(Reverse(parser.interfaces), "\n\n");
  }
}

/** What the first TypeScript transformer promises. */
module TsTransformerProperties {
  import opened Wrappers
  import opened JsonValue
  import opened Records
  import opened Text
  import opened TsTransformer

  /** Arrays look at element 0 only: its name and `[]` when it is composite, else `typeof` of it and `[]`. */
  lemma ArrayCases(elems: seq<Json>, name: string)
    ensures elems == [] ==> Parse(JArr(elems), name) == ("undefined[]", [])
    ensures elems != [] && elems[0] == JNull ==> Parse(JArr(elems), name) == ("object[]", [])
    ensures elems != [] && IsComposite(elems[0]) ==>
      Parse(JArr(elems), name) == (Singular(name) + "[]", Parse(elems[0], Singular(name)).1)
    ensures elems != [] ==> Parse(JArr(elems), name) == Parse(JArr([elems[0]]), name)
  {
    if elems == [] {
      assert FirstTypeOf(elems) + "[]" == "undefined[]";
    } else if elems[0] == JNull {
      assert FirstTypeOf(elems) + "[]" == "object[]";
    }
  }

  /** A null member prints `null`, an object its capitalized key, an array its array text, anything else its `typeof`. */
  lemma FieldCases(key: string, value: Json)
    ensures value == JNull ==> Field(key, value) == ("  " + key + ": null;\n", [])
    ensures value.JObj? ==> Field(key, value) == ("  " + key + ": " + Capitalize(key) + ";\n", Parse(value, Capitalize(key)).1)
    ensures value.JArr? ==> Field(key, value) == ("  " + key + ": " + Parse(value, Capitalize(key)).0 + ";\n", Parse(value, Capitalize(key)).1)
    ensures !IsComposite(value) && value != JNull ==>
      Field(key, value) == ("  " + key + ": " + TypeOf(value) + ";\n", []) && TypeOf(value) in {"string", "number", "boolean"}
  {
  }

  /** The field line of every visited member, in `Object.keys` order. */
  function FieldLines(v: Json): (lines: seq<string>)
    requires v.JObj?
    ensures |lines| == |Members(v)|
  {
    seq(|Members(v)|, k requires 0 <= k < |Members(v)| => Field(Members(v)[k].0, Members(v)[k].1).0)
  }

  lemma {:induction false} MemberLinesShape(v: Json, i: nat)
    requires v.JObj? && i <= |Members(v)|
    ensures MemberLines(v, i).0 == FieldLines(v)[i..]
    decreases |Members(v)| - i
  {
    if i < |Members(v)| {
      var all := FieldLines(v);
      assert MemberLines(v, i).0 == [all[i]] + MemberLines(v, i + 1).0 by {
        MemberLinesUnfold(v, i);
      }
      MemberLinesShape(v, i + 1);
      ConsSlice(all, i);
    }
  }

  /**
    An object is named `name` as given, and its own interface is pushed
    last, after everything its members pushed, with one line per visited
    member in `Object.keys` order.
  */
  lemma ObjectInterface(v: Json, name: string)
    requires v.JObj?
    ensures var (lines, pushed) := MemberLines(v, 0);
      && Parse(v, name) == (name, pushed + [Block(name, lines)])
      && |lines| == |Members(v)|
      && forall j :: 0 <= j < |lines| ==> lines[j] == Field(Members(v)[j].0, Members(v)[j].1).0
  {
    MemberLinesShape(v, 0);
    assert FieldLines(v)[0..] == FieldLines(v);
  }

  /** Everything pushed is an interface declaration. */
  predicate AllBlocks(pushed: seq<string>)
  {
    forall j :: 0 <= j < |pushed| ==> "export interface " <= pushed[j]
  }

  lemma {:induction false} ParseBlocks(v: Json, name: string)
    ensures AllBlocks(Parse(v, name).1)
    decreases v, 1
  {
    match v
    case JArr(elems) =>
      if elems != [] && IsComposite(elems[0]) {
        ParseBlocks(elems[0], Singular(name));
      }
    case JObj(_) =>
      MemberLinesBlocks(v, 0);
      var (lines, pushed) := MemberLines(v, 0);
      var b := Block(name, lines);
      assert "export interface " <= b;
      assert forall j :: 0 <= j < |pushed| ==> (pushed + [b])[j] == pushed[j];
    case _ =>
  }

  lemma {:induction false} FieldBlocks(key: string, value: Json)
    ensures AllBlocks(Field(key, value).1)
    decreases value, 2
  {
    if IsComposite(value) {
      ParseBlocks(value, Capitalize(key));
    }
  }

  lemma {:induction false} MemberLinesBlocks(v: Json, i: nat)
    requires v.JObj? && i <= |Members(v)|
    ensures AllBlocks(MemberLines(v, i).1)
    decreases v, 0, |Members(v)| - i
  {
    if i < |Members(v)| {
      MemberWritten(v, i);
      var (key, value) := Members(v)[i];
      FieldBlocks(key, value);
      MemberLinesBlocks(v, i + 1);
      BlocksAppend(Field(key, value).1, MemberLines(v, i + 1).1);
    }
  }

  lemma BlocksAppend(a: seq<string>, b: seq<string>)
    requires AllBlocks(a) && AllBlocks(b)
    ensures AllBlocks(a + b)
  {
    forall j | 0 <= j < |a + b| ensures "export interface " <= (a + b)[j] {
      if j >= |a| { assert (a + b)[j] == b[j - |a|]; }
    }
  }

  /** The objects `parse` visits: every object, through every member and through element 0 of every array. */
  function ObjectCount(v: Json): nat
    decreases v, 1
  {
    match v
    case JArr(elems) => if elems != [] && IsComposite(elems[0]) then ObjectCount(elems[0]) else 0
    case JObj(_) => 1 + MembersCount(v, 0)
    case _ => 0
  }

  function MembersCount(v: Json, i: nat): nat
    requires v.JObj? && i <= |Members(v)|
    decreases v, 0, |Members(v)| - i
  {
    if i == |Members(v)| then 0
    else
      MemberWritten(v, i);
      var value := Members(v)[i].1;
      (if IsComposite(value) then ObjectCount(value) else 0) + MembersCount(v, i + 1)
  }

  /** Exactly one interface per visited object: names are never deduplicated. */
  lemma {:induction false} InterfaceCount(v: Json, name: string)
    ensures |Parse(v, name).1| == ObjectCount(v)
    decreases v, 1
  {
    match v
    case JArr(elems) =>
      if elems != [] && IsComposite(elems[0]) {
        InterfaceCount(elems[0], Singular(name));
      }
    case JObj(_) =>
      MemberLinesCount(v, 0);
    case _ =>
  }

  lemma {:induction false} MemberLinesCount(v: Json, i: nat)
    requires v.JObj? && i <= |Members(v)|
    ensures |MemberLines(v, i).1| == MembersCount(v, i)
    decreases v, 0, |Members(v)| - i
  {
    if i < |Members(v)| {
      MemberWritten(v, i);
      var key, value := Members(v)[i].0, Members(v)[i].1;
      assert |MemberLines(v, i).1| == |Field(key, value).1| + |MemberLines(v, i + 1).1| by {
        MemberLinesUnfold(v, i);
      }
      FieldCount(key, value);
      MemberLinesCount(v, i + 1);
    }
  }

  /** A member pushes the interfaces of its value when it is composite, and none otherwise. */
  lemma {:induction false} FieldCount(key: string, value: Json)
    ensures |Field(key, value).1| == if IsComposite(value) then ObjectCount(value) else 0
    decreases value, 2
  {
    if IsComposite(value) {
      InterfaceCount(value, Capitalize(key));
    }
  }

  /**
    Two sibling objects whose keys capitalize alike push two interfaces of
    the same name, before the enclosing one.
  */
  lemma SameNameTwice(k1: string, k2: string, name: string)
    requires k1 != k2 && Capitalize(k1) == Capitalize(k2)
    ensures var v := JObj([(k1, JObj([])), (k2, JObj([]))]);
      var b := Block(Capitalize(k1), []);
      && Parse(v, name) == (name, [b, b, Block(name, MemberLines(v, 0).0)])
  {
    var v := JObj([(k1, JObj([])), (k2, JObj([]))]);
    MembersDistinct(v);
    assert Members(v) == [(k1, JObj([])), (k2, JObj([]))];
    assert Members(JObj([])) == [];
    var c := Capitalize(k1);
    var b := Block(c, []);
    assert Members(JObj([])) == [];
    assert MemberLines(JObj([]), 0) == ([], []);
    assert Parse(JObj([]), c).1 == [] + [b];
    assert Field(k1, JObj([])).1 == [b];
    assert Field(k2, JObj([])).1 == [b];
    assert MemberLines(v, 2).1 == [];
    assert MemberLines(v, 1).1 == [b] + [];
    assert MemberLines(v, 0).1 == [b] + [b];
    var (lines, pushed) := MemberLines(v, 0);
    assert Parse(v, name) == (name, pushed + [Block(name, lines)]);
    assert pushed + [Block(name, lines)] == [b, b, Block(name, lines)];
  }

  /**
    An object root puts its own interface, named `rootName` verbatim, first
    in the output; an array root whose element 0 is an object puts that
    element's interface first, named after the singular of `rootName`.
  */
  lemma RootFirst(data: Json, rootName: string)
    ensures data.JObj? ==> Block(rootName, MemberLines(data, 0).0) <= TsOutput(Some(data), rootName)
    ensures data.JArr? && data.elems != [] && data.elems[0].JObj? ==>
      Block(Singular(rootName), MemberLines(data.elems[0], 0).0) <= TsOutput(Some(data), rootName)
  {
    if data.JObj? {
      RootLast(data, rootName);
    } else if data.JArr? && data.elems != [] && data.elems[0].JObj? {
      assert Parse(data, rootName).1 == Parse(data.elems[0], Singular(rootName)).1;
      RootLast(data.elems[0], Singular(rootName));
    }
  }

  lemma RootLast(v: Json, name: string)
    requires v.JObj?
    ensures Block(name, MemberLines(v, 0).0) <= TsOutput(Some(v), name)
  {
    var pushed := Parse(v, name).1;
    var parts := Reverse(pushed);
    assert parts[0] == pushed[|pushed| - 1] == Block(name, MemberLines(v, 0).0);
    JoinStartsWithFirst(parts, "\n\n");
  }

  /**
    The output is empty exactly when nothing was pushed: for input that
    does not parse, for a root that is not composite, and for a root array
    whose element 0 is not.
  */
  lemma EmptyOutput(json: Option<Json>, rootName: string)
    ensures json.None? ==> TsOutput(json, rootName) == ""
    ensures json.Some? ==> (TsOutput(json, rootName) == "" <==> Parse(json.value, rootName).1 == [])
    ensures json.Some? && !IsComposite(json.value) ==> TsOutput(json, rootName) == ""
    ensures json.Some? && json.value.JArr? && (json.value.elems == [] || !IsComposite(json.value.elems[0])) ==>
      TsOutput(json, rootName) == ""
  {
    if json.Some? {
      var pushed := Parse(json.value, rootName).1;
      if pushed != [] {
        ParseBlocks(json.value, rootName);
        var parts := Reverse(pushed);
        assert "export interface " <= parts[0];
        JoinStartsWithFirst(parts, "\n\n");
      }
    }
  }

  /**
    An array whose element 0 is an array of scalars (or an empty one) is
    still named after the singular of its hint, yet no interface of that
    name is pushed: the text refers to a type the output never declares.
  */
  lemma NestedArrayName(inner: seq<Json>, rest: seq<Json>, name: string)
    requires inner == [] || !IsComposite(inner[0])
    ensures Parse(JArr([JArr(inner)] + rest), name) == (Singular(name) + "[]", [])
  {
    assert ([JArr(inner)] + rest)[0] == JArr(inner);
  }
}
