/**
  The first Zod transformer (lib/zodTransformer.ts). `jsonToZod` renders
  the parsed value directly, without inferring a schema first: it looks
  only at element 0 of each array, and it writes every member of an
  object with a trailing comma.

  `Render` and `PropsText` specify the `parse` closure, which is the
  method `RenderValue`; its object branch is the `props +=` loop.
*/
module ZodTransformer {
  import opened Wrappers
  import opened JsonValue
  import opened Records
  import opened Text

  /** `parse(obj)`. */
  function Render(v: Json): string
    decreases v, 1
  {
    match v
    case JNull => "z.any()"
    case JArr(elems) => if elems == [] then "z.array(z.any())" else "z.array(" + Render(elems[0]) + ")"
    case JObj(_) => "z.object({\n" + PropsText(v, 0) + "})"
    case JStr(_) => "z.string()"
    case JNum(_) => "z.number()"
    case JBool(_) => "z.boolean()"
  }

  /** `  ${key}: ${parse(obj[key])},\n`. */
  function PropLine(key: string, value: Json): string
    decreases value, 2
  {
    "  " + key + ": " + Render(value) + ",\n"
  }

  /** The lines of the `i`-th and later visited members, appended. */
  function PropsText(v: Json, i: nat): string
    requires v.JObj? && i <= |Members(v)|
    decreases v, 0, |Members(v)| - i
  {
    if i == |Members(v)| then ""
    else
      MemberWritten(v, i);
      PropLine(Members(v)[i].0, Members(v)[i].1) + PropsText(v, i + 1)
  }

  const Import := "import { z } from \"zod\";\n\nexport const "

  /** `jsonToZod(jsonStr, rootName)`, with a failed parse as `None`. */
  function ZodOutput(json: Option<Json>, rootName: string): string
  {
    match json
    case None => ""
    case Some(data) => Import + rootName + " = " + Render(data) + ";"
  }

  /** The `parse` closure; only its object branch changes anything step by step. */
  method RenderValue(v: Json) returns (s: string)
    ensures s == Render(v)
    decreases v, 1
  {
    if v == JNull {
      return "z.any()";
    }
    if v.JArr? {
      if |v.elems| == 0 {
        return "z.array(z.any())";
      }
      var item := RenderValue(v.elems[0]);
      return "z.array(" + item + ")";
    }
    if v.JObj? {
      var props := "";
      var ms := Members(v);
      var i := 0;
      while i < |ms|
        invariant 0 <= i <= |ms|
        invariant props + PropsText(v, i) == PropsText(v, 0)
      {
        MemberWritten(v, i);
        var (key, value) := ms[i];
        var rendered := RenderValue(value);
        assert props + PropsText(v, i) == (props + ("  " + key + ": " + rendered + ",\n")) + PropsText(v, i + 1);
        props := props + ("  " + key + ": " + rendered + ",\n");
        i := i + 1;
      }
      return "z.object({\n" + props + "})";
    }
    match v
    case JStr(_) => return "z.string()";
    case JNum(_) => return "z.number()";
    case JBool(_) => return "z.boolean()";
  }

  /** `jsonToZod`: render the parsed value into the export line. */
  method JsonToZod(json: Option<Json>, rootName: string) returns (out: string)
    ensures out == ZodOutput(json, rootName)
  {
    if json.None? {
      return "";
    }
    var schema := RenderValue(json.value);
    out := Import + rootName + " = " + schema + ";";
  }
}

/** What the first Zod transformer promises. */
module ZodTransformerProperties {
  import opened Wrappers
  import opened JsonValue
  import opened Records
  import opened Text
  import opened ZodTransformer
  import Ast
  import ZodGen

  /** Every rendering is a `z.` call: it starts with `z.` and ends with `)`. */
  lemma RenderIsCall(v: Json)
    ensures |Render(v)| >= 3 && Render(v)[..2] == "z." && Render(v)[|Render(v)| - 1] == ')'
  {
  }

  /** Arrays look at element 0 only; with none, the item is `z.any()`, as `null` is. */
  lemma ArrayCases(elems: seq<Json>)
    ensures elems == [] ==> Render(JArr(elems)) == "z.array(" + Render(JNull) + ")"
    ensures elems != [] ==> Render(JArr(elems)) == "z.array(" + Render(elems[0]) + ")"
    ensures elems != [] ==> Render(JArr(elems)) == Render(JArr([elems[0]]))
  {
  }

  /** The member lines of an object, one per visited key in `Object.keys` order. */
  function PropLines(v: Json): (lines: seq<string>)
    requires v.JObj?
    ensures |lines| == |Members(v)|
  {
    var ms := Members(v);
    seq(|ms|, j requires 0 <= j < |ms| => PropLine(ms[j].0, ms[j].1))
  }

  lemma {:induction false} PropsTextLines(v: Json, i: nat)
    requires v.JObj? && i <= |Members(v)|
    ensures PropsText(v, i) == Concat(PropLines(v)[i..])
    decreases |Members(v)| - i
  {
    if i < |Members(v)| {
      PropsTextLines(v, i + 1);
      assert PropLines(v)[i..][1..] == PropLines(v)[i + 1..];
    }
  }

  /**
    An object renders as `z.object({\n`, one line per member, then `})`;
    each line is the bare key, `: `, the member's rendering and a trailing
    comma, so the last member has one too.
  */
  lemma ObjectShape(v: Json)
    requires v.JObj?
    ensures Render(v) == "z.object({\n" + Concat(PropLines(v)) + "})"
    ensures forall j :: 0 <= j < |PropLines(v)| ==>
      var line := PropLines(v)[j];
      && line[..4 + |Members(v)[j].0|] == "  " + Members(v)[j].0 + ": "
      && line[4 + |Members(v)[j].0|..|line| - 2] == Render(Members(v)[j].1)
      && line[|line| - 2..] == ",\n"
  {
    PropsTextLines(v, 0);
    assert PropLines(v)[0..] == PropLines(v);
  }

  /** Strings, numbers and booleans render as the newer generator renders them; `null` does not. */
  lemma AgreesWithEngineOnScalars(v: Json)
    ensures (v.JStr? || v.JNum? || v.JBool?) ==> Render(v) == ZodGen.Render(Ast.Infer(v))
    ensures Render(JNull) == "z.any()" && ZodGen.Render(Ast.Infer(JNull)) == "z.null()"
  {
  }

  /** The export line around the rendering, named `rootName`, and `""` for input that does not parse. */
  lemma OutputFrame(json: Option<Json>, rootName: string)
    ensures json.None? ==> ZodOutput(json, rootName) == ""
    ensures json.Some? ==>
      var out := ZodOutput(json, rootName);
      var head := Import + rootName + " = ";
      && head <= out
      && out[|out| - 1] == ';'
      && out[|head|..|out| - 1] == Render(json.value)
  {
    if json.Some? {
      var head := Import + rootName + " = ";
      assert ZodOutput(json, rootName) == head + Render(json.value) + ";";
    }
  }
}
