/** The Zod schema generator over the shared schema (lib/engine/zod.ts). */
module ZodGen {
  import opened Wrappers
  import opened JsonValue
  import opened Records
  import opened Text
  import opened Ast

  /** `render(schema)`: a nested `z.*` expression; members keep insertion order and bare keys. */
  function Render(s: Schema): string
    decreases s, 1
  {
    match s
    case Prim(KString) => "z.string()"
    case Prim(KNumber) => "z.number()"
    case Prim(KBoolean) => "z.boolean()"
    case Prim(KNull) => "z.null()"
    case SArray(items) => "z.array(" + Render(items) + ")"
    case SObject(_, _) => "z.object({\n" + Join(MemberLines(s), ",\n") + "\n})"
    case Prim(KAny) => "z.any()"
  }

  /** `  ${k}: ${render(v)}` for each member, in insertion order. */
  function MemberLines(s: Schema): (lines: seq<string>)
    requires s.SObject?
    ensures |lines| == |s.properties|
    decreases s, 0
  {
    var p := s.properties;
    seq(|p|, i requires 0 <= i < |p| => "  " + p[i].0 + ": " + Render(p[i].1))
  }

  const Header := "import { z } from \"zod\";\n\nexport const schema = "

  /** `jsonToZod(json)`, with a failed parse as `None`. */
  function JsonToZod(json: Option<Json>): string
  {
    match json
    case None => "// Invalid JSON"
    case Some(data) => Header + Render(Infer(data)) + ";"
  }
}

/** What the Zod generator promises. */
module ZodProperties {
  import opened Wrappers
  import opened JsonValue
  import opened Records
  import opened Text
  import opened Ast
  import opened ZodGen

  /** Primitives render as `z.<type tag>()`, `any` included. */
  lemma RenderPrimitive(k: Kind)
    ensures Render(Prim(k)) == "z." + TypeTag(Prim(k)) + "()"
  {
  }

  /** Every rendering is a `z.` call: it starts with `z.` and ends with `)`. */
  lemma {:induction false} RenderIsCall(s: Schema)
    ensures |Render(s)| >= 3 && Render(s)[..2] == "z." && Render(s)[|Render(s)| - 1] == ')'
  {
  }

  /**
    An array renders as `z.array(` around its items' rendering, which can
    be read back from between the brackets.
  */
  lemma RenderArray(items: Schema)
    ensures var r := Render(SArray(items));
      && "z.array(" <= r && r[|r| - 1] == ')'
      && r[8..|r| - 1] == Render(items)
    ensures forall other: Schema :: Render(SArray(other)) == Render(SArray(items)) ==> Render(other) == Render(items)
  {
    var r := Render(SArray(items));
    assert r == "z.array(" + Render(items) + ")";
    assert r[8..|r| - 1] == Render(items);
    forall other: Schema | Render(SArray(other)) == r ensures Render(other) == Render(items) {
      var o := Render(SArray(other));
      assert o == "z.array(" + Render(other) + ")";
      assert o[8..|o| - 1] == Render(other);
    }
  }

  /**
    An object renders inside `z.object({\n` … `\n})`, with its member lines
    joined by `,\n` in between: one line per member in insertion order, each
    the bare key, `: ` and the member's rendering.
  */
  lemma RenderObjectShape(s: Schema)
    requires s.SObject?
    ensures "z.object({\n" <= Render(s)
    ensures |Render(s)| >= 14 && Render(s)[|Render(s)| - 3..] == "\n})"
    ensures |MemberLines(s)| == |s.properties|
    ensures forall i :: 0 <= i < |s.properties| ==> "  " + s.properties[i].0 + ": " <= MemberLines(s)[i]
    ensures Render(s)[11..|Render(s)| - 3] == Join(MemberLines(s), ",\n")
    ensures forall i :: 0 <= i < |s.properties| ==>
      MemberLines(s)[i][4 + |s.properties[i].0|..] == Render(s.properties[i].1)
  {
    var body := Join(MemberLines(s), ",\n");
    var r := Render(s);
    assert r == "z.object({\n" + (body + "\n})");
    assert r[11..|r| - 3] == body;
    forall i | 0 <= i < |s.properties|
      ensures "  " + s.properties[i].0 + ": " <= MemberLines(s)[i]
      ensures MemberLines(s)[i][4 + |s.properties[i].0|..] == Render(s.properties[i].1)
    {
      var p := s.properties;
      var line := MemberLines(s)[i];
      assert line == "  " + p[i].0 + ": " + Render(p[i].1);
      assert line[4 + |p[i].0|..] == Render(p[i].1);
    }
  }

  /** The same schema with every `required` set emptied, at every depth. */
  function StripRequired(s: Schema): Schema
  {
    match s
    case Prim(_) => s
    case SArray(items) => SArray(StripRequired(items))
    case SObject(p, _) => SObject(seq(|p|, i requires 0 <= i < |p| => (p[i].0, StripRequired(p[i].1))), {})
  }

  /** Rendering never reads `required`: optional members get no `.optional()`. */
  lemma {:induction false} RenderIgnoresRequired(s: Schema)
    ensures Render(StripRequired(s)) == Render(s)
    decreases s, 1
  {
    match s
    case Prim(_) =>
    case SArray(items) => RenderIgnoresRequired(items);
    case SObject(p, _) => MemberLinesIgnoreRequired(s);
  }

  lemma {:induction false} MemberLinesIgnoreRequired(s: Schema)
    requires s.SObject?
    ensures MemberLines(StripRequired(s)) == MemberLines(s)
    decreases s, 0
  {
    var p := s.properties;
    var a, b := MemberLines(StripRequired(s)), MemberLines(s);
    forall i | 0 <= i < |p| ensures a[i] == b[i] {
      assert StripRequired(s).properties[i] == (p[i].0, StripRequired(p[i].1));
      RenderIgnoresRequired(p[i].1);
    }
  }

  /** Two objects that differ only in `required` render alike. */
  lemma RenderObjectRequiredFree(p: Record<Schema>, r1: set<string>, r2: set<string>)
    ensures Render(SObject(p, r1)) == Render(SObject(p, r2))
  {
    assert MemberLines(SObject(p, r1)) == MemberLines(SObject(p, r2));
  }

  /** The frame of a valid result, and the sentinel for input that does not parse. */
  lemma JsonToZodFrame(json: Option<Json>)
    ensures json.None? ==> JsonToZod(json) == "// Invalid JSON"
    ensures json.Some? ==>
      && Header <= JsonToZod(json)
      && JsonToZod(json)[|JsonToZod(json)| - 1] == ';'
      && JsonToZod(json)[|Header|..|JsonToZod(json)| - 1] == Render(Infer(json.value))
  {
    if json.Some? {
      var r := Render(Infer(json.value));
      assert JsonToZod(json) == Header + r + ";";
    }
  }
}
