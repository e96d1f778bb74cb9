/**
  The TypeScript interface generator (lib/engine/typescript.ts).

  `Render` and `RenderProps` are the specification of the `render`
  closure: they thread a `Registry` (the closure's `interfaces` map, its
  `signatureMap` and its `order` list) through the walk in the order the
  source visits nodes. `TsEmitter` is the closure itself, a class whose
  methods update those three fields and are proved to follow `Render`.
*/
module TypeScriptGen {
  import opened Wrappers
  import opened JsonValue
  import opened Records
  import opened Text
  import opened Collation
  import opened Ast

  /*
   * Keys
   */

  predicate IsIdentStart(c: char)
  {
    'a' <= c <= 'z' || 'A' <= c <= 'Z' || c == '_'
  }

  predicate IsIdentPart(c: char)
  {
    IsIdentStart(c) || '0' <= c <= '9'
  }

  /** The test `/^[a-zA-Z_][a-zA-Z0-9_]*$/`. */
  predicate IsIdentifier(key: string)
  {
    |key| > 0 && IsIdentStart(key[0]) && forall i :: 1 <= i < |key| ==> IsIdentPart(key[i])
  }

  /** A property name as TypeScript accepts it: bare when it is an identifier, else in quotes, unescaped. */
  function SafeKey(key: string): (r: string)
    ensures r == key <==> IsIdentifier(key)
    ensures !IsIdentifier(key) ==> r == "\"" + key + "\""
  {
    if IsIdentifier(key) then key else "\"" + key + "\""
  }

  /*
   * JSON.stringify of strings
   */

  function HexDigit(d: nat): (c: char)
    requires d < 16
  {
    if d < 10 then ('0' as int + d) as char else ('a' as int + d - 10) as char
  }

  /** How `JSON.stringify` writes one character inside a string literal. */
  function EscapeChar(c: char): (e: string)
    ensures |e| > 0
  {
    if c == '"' then "\\\""
    else if c == '\\' then "\\\\"
    else if c as int == 8 then "\\b"
    else if c as int == 12 then "\\f"
    else if c == '\n' then "\\n"
    else if c == '\r' then "\\r"
    else if c == '\t' then "\\t"
    else if c as int < 32 then "\\u00" + [HexDigit(c as int / 16), HexDigit(c as int % 16)]
    else [c]
  }

  function Escape(s: string): string
  {
    if s == [] then "" else EscapeChar(s[0]) + Escape(s[1..])
  }

  /** `JSON.stringify(s)` for a string `s`. */
  function Quote(s: string): string
  {
    "\"" + Escape(s) + "\""
  }

  /*
   * Signatures
   */

  /** `JSON.stringify([k, sig])`. */
  function EntryText(k: string, sig: string): string
  {
    "[" + Quote(k) + "," + Quote(sig) + "]"
  }

  /**
    The structural signature of a node: the bare type tag of a non-object,
    and for an object the JSON text of its entries sorted by key, each
    paired with its own signature.
  */
  function Signature(node: Schema): string
    decreases node, 1
  {
    if !node.SObject? then TypeTag(node) else "[" + Join(EntryTexts(node), ",") + "]"
  }

  /** `JSON.stringify([k, signatureOf(v)])` for each entry of an object, in key order. */
  function EntryTexts(node: Schema): (ts: seq<string>)
    requires node.SObject?
    ensures |ts| == |node.properties|
    decreases node, 0
  {
    var sorted := SortByKey(node.properties);
    assert forall i :: 0 <= i < |sorted| ==> sorted[i] in node.properties by {
      forall i | 0 <= i < |sorted| ensures sorted[i] in node.properties {
        assert sorted[i] in multiset(sorted);
      }
    }
    seq(|sorted|, i requires 0 <= i < |sorted| => EntryText(sorted[i].0, Signature(sorted[i].1)))
  }

  /*
   * Rendering
   */

  /** The TypeScript keyword of a primitive node. */
  function Keyword(k: Kind): string
  {
    match k
    case KNumber => "number"
    case KBoolean => "boolean"
    case KString => "string"
    case KNull => "null"
    case KAny => "any"
  }

  /** One member line of an interface. */
  function PropLine(key: string, optional: bool, t: string): string
  {
    "  " + SafeKey(key) + (if optional then "?" else "") + ": " + t + ";"
  }

  function Block(name: string, props: string): string
  {
    "export interface " + name + " {\n" + props + "\n}"
  }

  /** The state the `render` closure shares across its calls. */
  datatype Registry = Registry(interfaces: map<string, string>, signatures: map<string, string>, order: seq<string>)

  const Empty := Registry(map[], map[], [])

  /** `render(node, name)`: the text for the node and the registry after it. */
  function Render(node: Schema, name: string, reg: Registry): (string, Registry)
    decreases node, 1
  {
    match node
    case SArray(items) =>
      var (t, reg') := Render(items, name, reg);
      (t + "[]", reg')
    case SObject(props, req) =>
      var sig := Signature(node);
      if sig in reg.signatures then (reg.signatures[sig], reg)
      else
        var iname := Capitalize(name);
        var (lines, reg') := RenderProps(node, 0, reg.(signatures := reg.signatures[sig := iname]));
        (iname, reg'.(interfaces := reg'.interfaces[iname := Block(iname, Join(lines, "\n"))],
                      order := reg'.order + [iname]))
    case Prim(k) => (Keyword(k), reg)
  }

  /** The member lines of an object from its `i`-th property on, rendered left to right. */
  function RenderProps(node: Schema, i: nat, reg: Registry): (seq<string>, Registry)
    requires node.SObject? && i <= |node.properties|
    decreases node, 0, |node.properties| - i
  {
    if i == |node.properties| then ([], reg)
    else
      var (key, val) := node.properties[i];
      var (t, reg1) := Render(val, key, reg);
      var (rest, reg2) := RenderProps(node, i + 1, reg1);
      ([PropLine(key, key !in node.required, t)] + rest, reg2)
  }

  /** What `interfaces.get(name)` contributes to `join`: nothing when absent. */
  function Lookup(reg: Registry, name: string): string
  {
    if name in reg.interfaces then reg.interfaces[name] else ""
  }

  /** `order.reverse().map(name => interfaces.get(name))`. */
  function Blocks(reg: Registry): (bs: seq<string>)
    ensures |bs| == |reg.order|
  {
    var names := Reverse(reg.order);
    seq(|names|, i requires 0 <= i < |names| => Lookup(reg, names[i]))
  }

  /** `generateTs(json, rootName)`, with a failed parse as `None`. */
  function GenerateTsSpec(json: Option<Json>, rootName: string): string
  {
    match json
    case None => "// Invalid JSON"
    case Some(data) =>
      var (_, reg) := Render(Infer(data), rootName, Empty);
      Join(Blocks(reg), "\n\n")
  }

  /** The `render` closure over its three maps and list. */
  class TsEmitter {
    var interfaces: map<string, string>
    var signatureMap: map<string, string>
    var order: seq<string>

    function State(): Registry
      reads this
    {
      Registry(interfaces, signatureMap, order)
    }

    constructor()
      ensures State() == Empty
    {
      interfaces := map[];
      signatureMap := map[];
      order := [];
    }

    method RenderNode(node: Schema, name: string) returns (t: string)
      modifies this
      ensures (t, State()) == Render(node, name, old(State()))
      decreases node, 1
    {
      if node.SArray? {
        var inner := RenderNode(node.items, name);
        return inner + "[]";
      }
      if node.SObject? {
        var sig := Signature(node);
        if sig in signatureMap {
          return signatureMap[sig];
        }
        var interfaceName := Capitalize(name);
        signatureMap := signatureMap[sig := interfaceName];
        var lines := RenderProperties(node);
        interfaces := interfaces[interfaceName := Block(interfaceName, Join(lines, "\n"))];
        order := order + [interfaceName];
        return interfaceName;
      }
      return Keyword(node.kind);
    }

    /** The `.map` over `Object.entries(node.properties)`, one `render` call per entry. */
    method RenderProperties(node: Schema) returns (lines: seq<string>)
      requires node.SObject?
      modifies this
      ensures (lines, State()) == RenderProps(node, 0, old(State()))
      decreases node, 0
    {
      ghost var total := RenderProps(node, 0, State());
      lines := [];
      var i := 0;
      assert lines + total.0 == total.0;
      while i < |node.properties|
        invariant 0 <= i <= |node.properties|
        invariant total.0 == lines + RenderProps(node, i, State()).0
        invariant total.1 == RenderProps(node, i, State()).1
      {
        ghost var before := State();
        var key, val := node.properties[i].0, node.properties[i].1;
        var t := RenderNode(val, key);
        PropsAdvance(node, i, before, State(), t, lines, total);
        lines := lines + [PropLine(key, key !in node.required, t)];
        i := i + 1;
      }
      assert lines + RenderProps(node, i, State()).0 == lines;
    }
  }

  /** One step of `RenderProps`: the `i`-th line, then the rest from the state it leaves. */
  lemma RenderPropsStep(node: Schema, i: nat, reg: Registry)
    requires node.SObject? && i < |node.properties|
    ensures var (key, val) := node.properties[i];
            var (t, reg1) := Render(val, key, reg);
            RenderProps(node, i, reg) ==
              ([PropLine(key, key !in node.required, t)] + RenderProps(node, i + 1, reg1).0, RenderProps(node, i + 1, reg1).1)
  {
  }

  /** The loop step of `RenderProperties`: the `i`-th line moves from what is left to what is done. */
  lemma PropsAdvance(node: Schema, i: nat, before: Registry, after: Registry, t: string,
                     lines: seq<string>, total: (seq<string>, Registry))
    requires node.SObject? && i < |node.properties|
    requires (t, after) == Render(node.properties[i].1, node.properties[i].0, before)
    requires total.0 == lines + RenderProps(node, i, before).0
    requires total.1 == RenderProps(node, i, before).1
    ensures var line := PropLine(node.properties[i].0, node.properties[i].0 !in node.required, t);
            total.0 == (lines + [line]) + RenderProps(node, i + 1, after).0
    ensures total.1 == RenderProps(node, i + 1, after).1
  {
    var line := PropLine(node.properties[i].0, node.properties[i].0 !in node.required, t);
    RenderPropsStep(node, i, before);
    AppendShift(lines, [line], [line] + RenderProps(node, i + 1, after).0, RenderProps(node, i + 1, after).0);
  }

  method GenerateTs(json: Option<Json>, rootName: string) returns (out: string)
    ensures out == GenerateTsSpec(json, rootName)
  {
    if json.None? {
      return "// Invalid JSON";
    }
    var schema := InferSchema(json.value);
    var emitter := new TsEmitter();
    var _ := emitter.RenderNode(schema, rootName);
    out := Join(Blocks(emitter.State()), "\n\n");
  }
}
