/** What the TypeScript generator promises, proved about `Signature`, `Render` and `GenerateTsSpec`. */
module TypeScriptProperties {
  import opened Wrappers
  import opened JsonValue
  import opened Records
  import opened Text
  import opened Collation
  import opened Ast
  import opened TypeScriptGen

  /*
   * String literals: JSON.parse undoes the escaping of JSON.stringify
   */

  function HexValue(c: char): (r: Option<nat>)
    ensures r.Some? ==> r.value < 16
  {
    if '0' <= c <= '9' then Some(c as int - '0' as int)
    else if 'a' <= c <= 'f' then Some(c as int - 'a' as int + 10)
    else if 'A' <= c <= 'F' then Some(c as int - 'A' as int + 10)
    else None
  }

  /** The code unit written as four hex digits, if they are hex digits. */
  function HexQuad(t: string): (r: Option<nat>)
    requires |t| >= 4
    ensures r.Some? ==> r.value < 0x1_0000
  {
    match (HexValue(t[0]), HexValue(t[1]), HexValue(t[2]), HexValue(t[3]))
    case (Some(a), Some(b), Some(c), Some(d)) => Some(a * 4096 + b * 256 + c * 16 + d)
    case _ => None
  }

  /** The character a two-character escape `\x` stands for. */
  function SimpleEscape(x: char): Option<char>
  {
    if x == '"' then Some('"')
    else if x == '\\' then Some('\\')
    else if x == 'b' then Some(8 as char)
    else if x == 'f' then Some(12 as char)
    else if x == 'n' then Some('\n')
    else if x == 'r' then Some('\r')
    else if x == 't' then Some('\t')
    else None
  }

  function Prepend(c: char, rest: Option<string>): Option<string>
  {
    match rest
    case None => None
    case Some(r) => Some([c] + r)
  }

  /** Reads the body of a JSON string literal back into the string it denotes. */
  function Unescape(t: string): Option<string>
    decreases |t|, 1
  {
    if t == [] then Some([])
    else if t[0] == '\\' then UnescapeSequence(t)
    else if t[0] == '"' || (t[0] as int) < 32 then None
    else Prepend(t[0], Unescape(t[1..]))
  }

  /** An escape sequence at the start of `t`, then the rest. */
  function UnescapeSequence(t: string): Option<string>
    requires |t| > 0 && t[0] == '\\'
    decreases |t|, 0
  {
    if |t| < 2 then None
    else if SimpleEscape(t[1]).Some? then Prepend(SimpleEscape(t[1]).value, Unescape(t[2..]))
    else if t[1] == 'u' && |t| >= 6 then
      match HexQuad(t[2..6])
      case Some(v) =>
        if v < 0xD800 || 0xE000 <= v then Prepend(v as char, Unescape(t[6..])) else None
      case None => None
    else None
  }

  lemma HexRoundTrip(d: nat)
    requires d < 16
    ensures HexValue(HexDigit(d)) == Some(d)
  {
  }

  lemma UnescapeChar(c: char, rest: string)
    ensures Unescape(EscapeChar(c) + rest) == Prepend(c, Unescape(rest))
  {
    var e := EscapeChar(c);
    var t := e + rest;
    if c == '"' || c == '\\' || c as int == 8 || c as int == 12 || c == '\n' || c == '\r' || c == '\t' {
      assert |e| == 2 && t[0] == '\\' && t[2..] == rest;
      UnescapeShort(c, t);
    } else if c as int < 32 {
      UnescapeControl(c, rest);
    } else {
      assert t[0] == c && t[1..] == rest;
    }
  }

  lemma UnescapeShort(c: char, t: string)
    requires c == '"' || c == '\\' || c as int == 8 || c as int == 12 || c == '\n' || c == '\r' || c == '\t'
    requires |t| >= 2 && t[..2] == EscapeChar(c)
    ensures Unescape(t) == Prepend(c, Unescape(t[2..]))
  {
    assert t[0] == '\\' && SimpleEscape(t[1]) == Some(c) by {
      ShortEscape(c);
      assert t[0] == t[..2][0] && t[1] == t[..2][1];
    }
  }

  /** The seven characters with a two-character escape: a backslash, then a letter `SimpleEscape` reads back. */
  lemma ShortEscape(c: char)
    requires c == '"' || c == '\\' || c as int == 8 || c as int == 12 || c == '\n' || c == '\r' || c == '\t'
    ensures |EscapeChar(c)| == 2 && EscapeChar(c)[0] == '\\' && SimpleEscape(EscapeChar(c)[1]) == Some(c)
  {
  }

  lemma UnescapeControl(c: char, rest: string)
    requires c as int < 32 && c != '"' && c != '\\' && c as int != 8 && c as int != 12
    requires c != '\n' && c != '\r' && c != '\t'
    ensures Unescape(EscapeChar(c) + rest) == Prepend(c, Unescape(rest))
  {
    var hi, lo := c as int / 16, c as int % 16;
    var t := EscapeChar(c) + rest;
    HexRoundTrip(hi);
    HexRoundTrip(lo);
    assert t[..6] == ['\\', 'u', '0', '0', HexDigit(hi), HexDigit(lo)];
    assert t[6..] == rest;
    assert t[2..6] == ['0', '0', HexDigit(hi), HexDigit(lo)];
    assert HexQuad(t[2..6]) == Some(hi * 16 + lo);
    assert hi * 16 + lo == c as int;
    assert SimpleEscape(t[1]).None?;
  }

  /** Every string survives the escaping `JSON.stringify` applies to it. */
  lemma {:induction false} UnescapeEscape(s: string)
    ensures Unescape(Escape(s)) == Some(s)
  {
    if s != [] {
      UnescapeEscape(s[1..]);
      UnescapeChar(s[0], Escape(s[1..]));
      assert [s[0]] + s[1..] == s;
    }
  }

  /** Text without quotes, backslashes or control characters is written as it is. */
  lemma {:induction false} EscapePlain(s: string)
    requires forall i :: 0 <= i < |s| ==> s[i] != '"' && s[i] != '\\' && s[i] as int >= 32
    ensures Escape(s) == s
  {
    if s != [] {
      EscapePlain(s[1..]);
      assert s == [s[0]] + s[1..];
    }
  }

  /** So distinct strings have distinct literals, and a signature names its keys unambiguously. */
  lemma QuoteInjective(s: string, t: string)
    requires Quote(s) == Quote(t)
    ensures s == t
  {
    assert Escape(s) == Quote(s)[1..|Quote(s)| - 1];
    assert Escape(t) == Quote(t)[1..|Quote(t)| - 1];
    UnescapeEscape(s);
    UnescapeEscape(t);
  }

  /*
   * Signatures
   */

  /**
    The shape a signature sees: every `required` set emptied and every
    array's element schema forgotten, at every depth.
  */
  function Skeleton(s: Schema): Schema
  {
    match s
    case Prim(_) => s
    case SArray(_) => SArray(Any)
    case SObject(p, _) => SObject(seq(|p|, i requires 0 <= i < |p| => (p[i].0, Skeleton(p[i].1))), {})
  }

  /** The signature ignores `required` and array element types, at every depth. */
  lemma {:induction false} SignatureSkeleton(s: Schema)
    ensures Signature(Skeleton(s)) == Signature(s)
    decreases s, 1
  {
    if s.SObject? {
      EntryTextsSkeleton(s);
    }
  }

  lemma {:induction false} EntryTextsSkeleton(s: Schema)
    requires s.SObject?
    ensures EntryTexts(Skeleton(s)) == EntryTexts(s)
    decreases s, 0
  {
    var p := s.properties;
    var sk := Skeleton(s).properties;
    assert sk == MapValues(p, Skeleton);
    SortMapValues(p, Skeleton);
    var sorted := SortByKey(p);
    var sorted' := SortByKey(sk);
    assert sorted' == MapValues(sorted, Skeleton);
    var a, b := EntryTexts(Skeleton(s)), EntryTexts(s);
    forall i | 0 <= i < |sorted| ensures a[i] == b[i] {
      assert sorted[i] in multiset(sorted);
      assert sorted[i] in p;
      assert sorted'[i] == (sorted[i].0, Skeleton(sorted[i].1));
      SignatureSkeleton(sorted[i].1);
    }
  }

  /** Objects whose props differ only in `required` or in array element types share a signature. */
  lemma SameSkeletonSameSignature(a: Schema, b: Schema)
    requires Skeleton(a) == Skeleton(b)
    ensures Signature(a) == Signature(b)
  {
    SignatureSkeleton(a);
    SignatureSkeleton(b);
  }

  /** Entries are sorted first, so the insertion order of the properties does not matter. */
  lemma SignatureOrderFree(p: Record<Schema>, q: Record<Schema>, ra: set<string>, rb: set<string>)
    requires DistinctKeys(p) && DistinctKeys(q) && multiset(p) == multiset(q)
    ensures Signature(SObject(p, ra)) == Signature(SObject(q, rb))
  {
    SortByKeyProperties(p);
    SortByKeyProperties(q);
    SortedPermutationUnique(SortByKey(p), SortByKey(q));
  }

  /** A non-object's signature is its type tag; an object's is a JSON array text. */
  lemma SignatureShape(s: Schema)
    ensures !s.SObject? ==> Signature(s) == TypeTag(s)
    ensures s.SObject? ==> Signature(s)[0] == '[' && Signature(s)[|Signature(s)| - 1] == ']'
    ensures s.SObject? != (Signature(s) in {"string", "number", "boolean", "null", "any", "array"})
  {
  }

  /*
   * Rendering of single nodes
   */

  /** An already registered signature renders as its earlier name and changes nothing. */
  lemma RenderReuses(node: Schema, name: string, reg: Registry)
    requires node.SObject? && Signature(node) in reg.signatures
    ensures Render(node, name, reg) == (reg.signatures[Signature(node)], reg)
  {
  }

  /** Primitives render to their keyword, which is their type tag; arrays append `[]` and keep the name hint. */
  lemma RenderNonObject(node: Schema, name: string, reg: Registry)
    requires !node.SObject?
    ensures node.Prim? ==> Render(node, name, reg) == (TypeTag(node), reg)
    ensures node.SArray? ==>
      Render(node, name, reg) == (Render(node.items, name, reg).0 + "[]", Render(node.items, name, reg).1)
  {
  }

  /** A member line carries `?` right after its key exactly when the member is optional. */
  lemma PropLineMarker(key: string, optional: bool, t: string)
    ensures "  " + SafeKey(key) < PropLine(key, optional, t)
    ensures PropLine(key, optional, t)[2 + |SafeKey(key)|] == '?' <==> optional
  {
    var line := PropLine(key, optional, t);
    assert line == "  " + SafeKey(key) + ((if optional then "?" else "") + ": " + t + ";");
  }

  /** One member line per property, in insertion order, with `?` exactly for keys outside `required`. */
  lemma {:induction false} RenderPropsLines(node: Schema, i: nat, reg: Registry)
    requires node.SObject? && i <= |node.properties|
    ensures LinesFor(RenderProps(node, i, reg).0, node.properties, node.required, i)
    decreases |node.properties| - i
  {
    if i < |node.properties| {
      var key, val := node.properties[i].0, node.properties[i].1;
      var t, reg1 := Render(val, key, reg).0, Render(val, key, reg).1;
      var rest := RenderProps(node, i + 1, reg1).0;
      var line := PropLine(key, key !in node.required, t);
      assert RenderProps(node, i, reg).0 == [line] + rest by {
        RenderPropsStep(node, i, reg);
      }
      assert LineFor(line, key, node.required) by {
        PropLineMarker(key, key !in node.required, t);
      }
      RenderPropsLines(node, i + 1, reg1);
      LinesCons(line, rest, node.properties, node.required, i);
    }
  }

  /** `lines` are the member lines of the properties from `i` on, one each and in order. */
  predicate LinesFor(lines: seq<string>, props: Record<Schema>, required: set<string>, i: nat)
    requires i <= |props|
    decreases |props| - i
  {
    if i == |props| then lines == []
    else lines != [] && LineFor(lines[0], props[i].0, required) && LinesFor(lines[1..], props, required, i + 1)
  }

  /** Prepending the line of property `i` to the lines of the later properties. */
  lemma LinesCons(line: string, rest: seq<string>, props: Record<Schema>, required: set<string>, i: nat)
    requires i < |props| && LineFor(line, props[i].0, required)
    requires LinesFor(rest, props, required, i + 1)
    ensures LinesFor([line] + rest, props, required, i)
  {
    assert ([line] + rest)[1..] == rest;
  }

  /** `line` is the member line of `key`: it starts with the key, then `?` iff the key is optional. */
  predicate LineFor(line: string, key: string, required: set<string>)
  {
    && "  " + SafeKey(key) < line
    && (line[2 + |SafeKey(key)|] == '?' <==> key !in required)
  }

  /*
   * The registry across a walk
   */

  /**
    `after` extends `before`: registered signatures keep their names, the
    order only grows at its end, by one name per new signature, and no
    interface disappears.
  */
  predicate Extends(before: Registry, after: Registry)
  {
    && (forall s :: s in before.signatures ==> s in after.signatures && after.signatures[s] == before.signatures[s])
    && before.order <= after.order
    && |after.order| - |before.order| == |after.signatures| - |before.signatures|
    && (forall n :: n in before.interfaces ==> n in after.interfaces)
  }

  /** Every name in `order` has an interface text. */
  predicate Consistent(reg: Registry)
  {
    forall n :: n in reg.order ==> n in reg.interfaces
  }

  lemma ExtendsTrans(a: Registry, b: Registry, c: Registry)
    requires Extends(a, b) && Extends(b, c)
    ensures Extends(a, c)
  {
  }

  lemma {:induction false} RenderExtends(node: Schema, name: string, reg: Registry)
    ensures Extends(reg, Render(node, name, reg).1)
    ensures Consistent(reg) ==> Consistent(Render(node, name, reg).1)
    decreases node, 1
  {
    match node
    case SArray(items) => RenderExtends(items, name, reg);
    case SObject(props, req) =>
      if Signature(node) !in reg.signatures {
        RenderObjectExtends(node, name, reg);
      }
    case Prim(_) =>
  }

  lemma {:induction false} RenderObjectExtends(node: Schema, name: string, reg: Registry)
    requires node.SObject? && Signature(node) !in reg.signatures
    ensures Extends(reg, Render(node, name, reg).1)
    ensures Consistent(reg) ==> Consistent(Render(node, name, reg).1)
    decreases node, 0, |node.properties| + 1
  {
    var sig := Signature(node);
    var iname := Capitalize(name);
    var reg0 := reg.(signatures := reg.signatures[sig := iname]);
    assert |reg0.signatures| == |reg.signatures| + 1;
    RenderPropsExtends(node, 0, reg0);
    var (lines, reg') := RenderProps(node, 0, reg0);
    var fin := reg'.(interfaces := reg'.interfaces[iname := Block(iname, Join(lines, "\n"))], order := reg'.order + [iname]);
    assert Render(node, name, reg).1 == fin;
    assert Extends(reg0, reg');
    assert reg.order <= fin.order by { assert reg'.order <= fin.order; }
    assert |fin.order| - |reg.order| == |fin.signatures| - |reg.signatures|;
  }

  lemma {:induction false} RenderPropsExtends(node: Schema, i: nat, reg: Registry)
    requires node.SObject? && i <= |node.properties|
    ensures Extends(reg, RenderProps(node, i, reg).1)
    ensures Consistent(reg) ==> Consistent(RenderProps(node, i, reg).1)
    decreases node, 0, |node.properties| - i
  {
    if i < |node.properties| {
      var key, val := node.properties[i].0, node.properties[i].1;
      var reg1 := Render(val, key, reg).1;
      var reg2 := RenderProps(node, i + 1, reg1).1;
      assert RenderProps(node, i, reg).1 == reg2 by {
        RenderPropsStep(node, i, reg);
      }
      assert Extends(reg, reg1) && (Consistent(reg) ==> Consistent(reg1)) by {
        RenderExtends(val, key, reg);
      }
      assert Extends(reg1, reg2) && (Consistent(reg1) ==> Consistent(reg2)) by {
        RenderPropsExtends(node, i + 1, reg1);
      }
      ExtendsStep(reg, reg1, reg2);
    }
  }

  /** Two extension steps that each keep the registry consistent make one. */
  lemma ExtendsStep(a: Registry, b: Registry, c: Registry)
    requires Extends(a, b) && Extends(b, c)
    requires Consistent(a) ==> Consistent(b)
    requires Consistent(b) ==> Consistent(c)
    ensures Extends(a, c) && (Consistent(a) ==> Consistent(c))
  {
    ExtendsTrans(a, b, c);
  }

  /** The signatures of every object node inside a schema. */
  function ObjectSigs(s: Schema): set<string>
    decreases s, 1
  {
    match s
    case Prim(_) => {}
    case SArray(items) => ObjectSigs(items)
    case SObject(_, _) => {Signature(s)} + PropsSigs(s, 0)
  }

  function PropsSigs(s: Schema, i: nat): set<string>
    requires s.SObject? && i <= |s.properties|
    decreases s, 0, |s.properties| - i
  {
    if i == |s.properties| then {} else ObjectSigs(s.properties[i].1) + PropsSigs(s, i + 1)
  }

  /** A walk registers only signatures of objects it contains. */
  lemma {:induction false} RenderRegisters(node: Schema, name: string, reg: Registry)
    ensures Render(node, name, reg).1.signatures.Keys <= reg.signatures.Keys + ObjectSigs(node)
    decreases node, 1
  {
    match node
    case SArray(items) => RenderRegisters(items, name, reg);
    case SObject(props, req) =>
      var sig := Signature(node);
      if sig !in reg.signatures {
        var reg0 := reg.(signatures := reg.signatures[sig := Capitalize(name)]);
        RenderPropsRegisters(node, 0, reg0);
      }
    case Prim(_) =>
  }

  lemma {:induction false} RenderPropsRegisters(node: Schema, i: nat, reg: Registry)
    requires node.SObject? && i <= |node.properties|
    ensures RenderProps(node, i, reg).1.signatures.Keys <= reg.signatures.Keys + PropsSigs(node, i)
    decreases node, 0, |node.properties| - i
  {
    if i < |node.properties| {
      var (key, val) := node.properties[i];
      RenderRegisters(val, key, reg);
      RenderPropsRegisters(node, i + 1, Render(val, key, reg).1);
    }
  }

  /** Arrays of arrays peeled down to their innermost element schema. */
  function Innermost(s: Schema): Schema
  {
    if s.SArray? then Innermost(s.items) else s
  }

  /**
    When the innermost node is an object with an unseen signature, its
    interface is completed last and under the capitalized name hint.
  */
  lemma {:induction false} RenderRootLast(node: Schema, name: string, reg: Registry)
    requires Innermost(node).SObject? && Signature(Innermost(node)) !in reg.signatures
    ensures var after := Render(node, name, reg).1;
      && |after.order| > 0
      && after.order[|after.order| - 1] == Capitalize(name)
      && Capitalize(name) in after.interfaces
      && "export interface " + Capitalize(name) + " {\n" <= after.interfaces[Capitalize(name)]
  {
    if node.SArray? {
      RenderRootLast(node.items, name, reg);
    } else {
      var iname := Capitalize(name);
      var sig := Signature(node);
      var (lines, reg') := RenderProps(node, 0, reg.(signatures := reg.signatures[sig := iname]));
      RenderFresh(node, name, reg);
      BlockHeader(iname, Join(lines, "\n"));
    }
  }

  lemma BlockHeader(name: string, props: string)
    ensures "export interface " + name + " {\n" <= Block(name, props)
  {
    assert Block(name, props) == "export interface " + name + " {\n" + (props + "\n}");
  }

  /*
   * Whole output
   */

  /**
    The output has one block per registered signature, and the block of
    the root object (reached through any arrays around it) comes first.
  */
  lemma GenerateTsBlocks(data: Json, rootName: string)
    ensures var reg := Render(Infer(data), rootName, Empty).1;
      && |Blocks(reg)| == |reg.signatures|
      && reg.signatures.Keys <= ObjectSigs(Infer(data))
      && (forall i :: 0 <= i < |Blocks(reg)| ==>
            Reverse(reg.order)[i] in reg.interfaces && Blocks(reg)[i] == reg.interfaces[Reverse(reg.order)[i]])
      && GenerateTsSpec(Some(data), rootName) == Join(Blocks(reg), "\n\n")
  {
    var reg := Render(Infer(data), rootName, Empty).1;
    RenderExtends(Infer(data), rootName, Empty);
    RenderRegisters(Infer(data), rootName, Empty);
    BlocksListed(reg);
  }

  /** With every ordered name stored, the blocks are the stored texts in reverse order. */
  lemma BlocksListed(reg: Registry)
    requires Consistent(reg)
    ensures forall i :: 0 <= i < |Blocks(reg)| ==>
      Reverse(reg.order)[i] in reg.interfaces && Blocks(reg)[i] == reg.interfaces[Reverse(reg.order)[i]]
  {
    forall i | 0 <= i < |Blocks(reg)|
      ensures Reverse(reg.order)[i] in reg.interfaces && Blocks(reg)[i] == reg.interfaces[Reverse(reg.order)[i]]
    {
      assert Reverse(reg.order)[i] == reg.order[|reg.order| - 1 - i];
    }
  }

  lemma JoinPrefix(parts: seq<string>, sep: string, p: string)
    requires |parts| > 0 && p <= parts[0]
    ensures p <= Join(parts, sep)
  {
    JoinStartsWithFirst(parts, sep);
  }

  /** The root interface is printed first, under the capitalized root name. */
  lemma GenerateTsRootFirst(data: Json, rootName: string)
    requires Innermost(Infer(data)).SObject?
    ensures "export interface " + Capitalize(rootName) + " {\n" <= GenerateTsSpec(Some(data), rootName)
  {
    var reg := Render(Infer(data), rootName, Empty).1;
    RenderRootLast(Infer(data), rootName, Empty);
    LastBlockFirst(reg, Capitalize(rootName));
    assert GenerateTsSpec(Some(data), rootName) == Join(Blocks(reg), "\n\n");
  }

  /** The interface named last in `order` is the first block printed. */
  lemma LastBlockFirst(reg: Registry, name: string)
    requires |reg.order| > 0 && reg.order[|reg.order| - 1] == name && name in reg.interfaces
    requires "export interface " + name + " {\n" <= reg.interfaces[name]
    ensures "export interface " + name + " {\n" <= Join(Blocks(reg), "\n\n")
  {
    assert Blocks(reg)[0] == Lookup(reg, reg.order[|reg.order| - 1]);
    JoinPrefix(Blocks(reg), "\n\n", "export interface " + name + " {\n");
  }

  /** Input that does not parse gives exactly the sentinel. */
  lemma GenerateTsInvalid(rootName: string)
    ensures GenerateTsSpec(None, rootName) == "// Invalid JSON"
  {
  }

  lemma {:induction false} EscapeLength(s: string)
    ensures |Escape(s)| >= |s|
  {
    if s != [] { EscapeLength(s[1..]); }
  }

  lemma {:induction false} JoinLength(parts: seq<string>, sep: string, j: nat)
    requires j < |parts|
    ensures |Join(parts, sep)| >= |parts[j]|
  {
    if j > 0 { JoinLength(parts[1..], sep, j - 1); }
  }

  /** An object's signature is longer than that of any of its members, so a member never shares it. */
  lemma SignatureGrows(node: Schema, i: nat)
    requires node.SObject? && i < |node.properties|
    ensures |Signature(node)| > |Signature(node.properties[i].1)|
  {
    var sorted := SortByKey(node.properties);
    assert node.properties[i] in multiset(sorted);
    var j :| 0 <= j < |sorted| && sorted[j] == node.properties[i];
    var e := EntryTexts(node);
    assert e[j] == EntryText(sorted[j].0, Signature(sorted[j].1));
    EscapeLength(Signature(sorted[j].1));
    JoinLength(e, ",", j);
  }

  /*
   * Name collisions
   */

  /** The schema of `{ key: <number> }`. */
  function Single(key: string): Schema
  {
    SObject([(key, Prim(KNumber))], {key})
  }

  lemma InferSingle(key: string, isInt: bool)
    ensures Infer(JObj([(key, JNum(isInt))])) == Single(key)
  {
    var data := JObj([(key, JNum(isInt))]);
    assert InferredEntries(data) == [(key, Prim(KNumber))];
    PutAllFresh([], InferredEntries(data));
    assert Keys(data.fields) == [key];
    assert KeySet(data.fields) == {key};
  }

  lemma SignatureSingle(key: string)
    ensures Signature(Single(key)) == "[" + ("[" + Quote(key) + "," + Quote("number") + "]") + "]"
  {
    var node := Single(key);
    assert SortByKey(node.properties) == node.properties;
    assert EntryTexts(node) == [EntryText(key, Signature(Prim(KNumber)))];
  }

  lemma FrameCancel(q1: string, q2: string, t: string)
    requires "[" + ("[" + q1 + "," + t + "]") + "]" == "[" + ("[" + q2 + "," + t + "]") + "]"
    ensures q1 == q2
  {
    var l, r := "[" + ("[" + q1 + "," + t + "]") + "]", "[" + ("[" + q2 + "," + t + "]") + "]";
    assert |q1| == |q2|;
    forall i | 0 <= i < |q1| ensures q1[i] == q2[i] {
      assert l[2 + i] == q1[i] && r[2 + i] == q2[i];
    }
  }

  /** Different keys give `{ key: number }` different signatures. */
  lemma SignatureSingleInjective(x: string, y: string)
    requires Signature(Single(x)) == Signature(Single(y))
    ensures x == y
  {
    SignatureSingle(x);
    SignatureSingle(y);
    FrameCancel(Quote(x), Quote(y), Quote("number"));
    QuoteInjective(x, y);
  }

  /** The root object `{ a: { x: n }, b: { y: m } }`. */
  function PairInput(a: string, x: string, n: bool, b: string, y: string, m: bool): Json
  {
    JObj([(a, JObj([(x, JNum(n))])), (b, JObj([(y, JNum(m))]))])
  }

  lemma InferPair(a: string, x: string, n: bool, b: string, y: string, m: bool)
    requires a != b
    ensures Infer(PairInput(a, x, n, b, y, m)) == SObject([(a, Single(x)), (b, Single(y))], {a, b})
  {
    var data := PairInput(a, x, n, b, y, m);
    var es := InferredEntries(data);
    assert Infer(data) == SObject(PutAll([], es), KeySet(data.fields));
    assert es[0] == (a, Single(x)) by { InferSingle(x, n); }
    assert es[1] == (b, Single(y)) by { InferSingle(y, m); }
    assert es == [(a, Single(x)), (b, Single(y))];
    PutAllEmpty(es);
    KeySetPair(data.fields[0], data.fields[1]);
    assert data.fields == [data.fields[0], data.fields[1]];
  }

  lemma RenderSingle(key: string, name: string, reg: Registry)
    requires Signature(Single(key)) !in reg.signatures
    ensures Render(Single(key), name, reg) ==
      (Capitalize(name),
       Registry(reg.interfaces[Capitalize(name) := Block(Capitalize(name), PropLine(key, false, "number"))],
                reg.signatures[Signature(Single(key)) := Capitalize(name)],
                reg.order + [Capitalize(name)]))
  {
    var node := Single(key);
    var reg0 := reg.(signatures := reg.signatures[Signature(node) := Capitalize(name)]);
    assert RenderProps(node, 1, reg0) == ([], reg0);
    RenderPropsStep(node, 0, reg0);
    assert Render(Prim(KNumber), key, reg0) == ("number", reg0);
    assert (key !in node.required) == false;
    assert [PropLine(key, false, "number")] + [] == [PropLine(key, false, "number")];
    assert RenderProps(node, 0, reg0) == ([PropLine(key, false, "number")], reg0);
  }

  /** The member lines of a two-member object. */
  lemma RenderProps2(node: Schema, reg: Registry)
    requires node.SObject? && |node.properties| == 2
    ensures var (a, va) := node.properties[0];
      var (b, vb) := node.properties[1];
      var r1 := Render(va, a, reg);
      var r2 := Render(vb, b, r1.1);
      RenderProps(node, 0, reg) == ([PropLine(a, a !in node.required, r1.0), PropLine(b, b !in node.required, r2.0)], r2.1)
  {
    var (a, va) := node.properties[0];
    var (b, vb) := node.properties[1];
    var r1 := Render(va, a, reg);
    var r2 := Render(vb, b, r1.1);
    RenderPropsStep(node, 0, reg);
    RenderPropsStep(node, 1, r1.1);
    var l1, l2 := PropLine(a, a !in node.required, r1.0), PropLine(b, b !in node.required, r2.0);
    assert RenderProps(node, 2, r2.1) == ([], r2.1);
    assert [l2] + [] == [l2];
    assert RenderProps(node, 1, r1.1) == ([l2], r2.1);
    assert [l1] + [l2] == [l1, l2];
  }

  lemma RenderPairProps(a: string, x: string, b: string, y: string, reg: Registry)
    requires a != b && x != y && Capitalize(a) == Capitalize(b)
    requires Signature(Single(x)) !in reg.signatures && Signature(Single(y)) !in reg.signatures
    ensures var root := SObject([(a, Single(x)), (b, Single(y))], {a, b});
      var n := Capitalize(a);
      && RenderProps(root, 0, reg).0 == [PropLine(a, false, n), PropLine(b, false, n)]
      && RenderProps(root, 0, reg).1.interfaces == reg.interfaces[n := Block(n, PropLine(y, false, "number"))]
      && RenderProps(root, 0, reg).1.order == reg.order + [n, n]
  {
    var root := SObject([(a, Single(x)), (b, Single(y))], {a, b});
    var n := Capitalize(a);
    if Signature(Single(x)) == Signature(Single(y)) { SignatureSingleInjective(x, y); }
    RenderSingle(x, a, reg);
    var r1 := Render(Single(x), a, reg);
    RenderSingle(y, b, r1.1);
    var r2 := Render(Single(y), b, r1.1);
    RenderProps2(root, reg);
    assert (a !in root.required) == false && (b !in root.required) == false;
    assert RenderProps(root, 0, reg) == ([PropLine(a, false, n), PropLine(b, false, n)], r2.1);
    assert r2.1.interfaces == reg.interfaces[n := Block(n, PropLine(y, false, "number"))] by {
      OverwriteTwice(reg.interfaces, n, Block(n, PropLine(x, false, "number")), Block(n, PropLine(y, false, "number")));
    }
    SnocSnoc(reg.order, n, n);
  }

  /** A second store under the same name replaces the first. */
  lemma OverwriteTwice<K, V>(m: map<K, V>, k: K, u: V, w: V)
    ensures m[k := u][k := w] == m[k := w]
  {
  }

  /** An object with an unseen signature: its members are rendered, then its block is stored and its name appended. */
  lemma RenderFresh(node: Schema, name: string, reg: Registry)
    requires node.SObject? && Signature(node) !in reg.signatures
    ensures var iname := Capitalize(name);
      var (lines, after) := RenderProps(node, 0, reg.(signatures := reg.signatures[Signature(node) := iname]));
      Render(node, name, reg) ==
        (iname, after.(interfaces := after.interfaces[iname := Block(iname, Join(lines, "\n"))], order := after.order + [iname]))
  {
  }

  /** The members of the colliding root: two lines naming `name`, and the second shape stored under it. */
  lemma CollisionMembers(a: string, x: string, b: string, y: string, reg: Registry)
    requires a != b && x != y && Capitalize(a) == Capitalize(b)
    requires reg.interfaces == map[] && reg.order == []
    requires Signature(Single(x)) !in reg.signatures && Signature(Single(y)) !in reg.signatures
    ensures var root := SObject([(a, Single(x)), (b, Single(y))], {a, b});
      var name := Capitalize(a);
      var (lines, after) := RenderProps(root, 0, reg);
      && lines == [PropLine(a, false, name), PropLine(b, false, name)]
      && after.interfaces == map[name := Block(name, PropLine(y, false, "number"))]
      && after.order == [name, name]
  {
    RenderPairProps(a, x, b, y, reg);
    EmptyAppend([Capitalize(a), Capitalize(a)]);
  }

  /** Neither member of the pair shares the root's signature. */
  lemma PairMembersFresh(a: string, x: string, b: string, y: string)
    ensures var root := SObject([(a, Single(x)), (b, Single(y))], {a, b});
      Signature(Single(x)) != Signature(root) && Signature(Single(y)) != Signature(root)
  {
    var root := SObject([(a, Single(x)), (b, Single(y))], {a, b});
    SignatureGrows(root, 0);
    SignatureGrows(root, 1);
  }

  lemma CollisionRegistry(a: string, x: string, b: string, y: string, rootName: string)
    requires a != b && x != y && Capitalize(a) == Capitalize(b) && Capitalize(rootName) != Capitalize(a)
    ensures var root := SObject([(a, Single(x)), (b, Single(y))], {a, b});
      var name := Capitalize(a);
      var fin := Render(root, rootName, Empty).1;
      && fin.order == [name, name, Capitalize(rootName)]
      && fin.interfaces == map[name := Block(name, PropLine(y, false, "number")),
                               Capitalize(rootName) := Block(Capitalize(rootName), Join([PropLine(a, false, name), PropLine(b, false, name)], "\n"))]
  {
    var root := SObject([(a, Single(x)), (b, Single(y))], {a, b});
    var n, rn := Capitalize(a), Capitalize(rootName);
    var sr := Signature(root);
    var reg1 := Registry(map[], map[sr := rn], []);
    assert Signature(Single(x)) !in reg1.signatures && Signature(Single(y)) !in reg1.signatures by {
      PairMembersFresh(a, x, b, y);
    }
    var lines, after := RenderProps(root, 0, reg1).0, RenderProps(root, 0, reg1).1;
    assert && lines == [PropLine(a, false, n), PropLine(b, false, n)]
           && after.interfaces == map[n := Block(n, PropLine(y, false, "number"))]
           && after.order == [n, n]
    by {
      CollisionMembers(a, x, b, y, reg1);
    }
    var fin := Render(root, rootName, Empty).1;
    assert fin == after.(interfaces := after.interfaces[rn := Block(rn, Join(lines, "\n"))], order := after.order + [rn]) by {
      RenderFresh(root, rootName, Empty);
      assert Empty.(signatures := Empty.signatures[sr := rn]) == reg1;
    }
    RootAfterPair(fin, after, n, rn, Block(n, PropLine(y, false, "number")), Block(rn, Join(lines, "\n")));
  }

  /** The registry once the root is stored after two members that both stored `n`. */
  lemma RootAfterPair(fin: Registry, after: Registry, n: string, rn: string, member: string, rootBlock: string)
    requires after.interfaces == map[n := member] && after.order == [n, n]
    requires fin == after.(interfaces := after.interfaces[rn := rootBlock], order := after.order + [rn])
    ensures fin.order == [n, n, rn] && fin.interfaces == map[n := member, rn := rootBlock]
  {
    PairSnoc(n, n, rn);
  }

  /**
    Two different shapes under keys that capitalize alike (`a` and `A`)
    both become interface `A`: the later text replaces the earlier one in
    `interfaces` while `order` holds the name twice, so that text is
    printed twice and the first shape is lost.
  */
  lemma NameCollision(a: string, x: string, n: bool, b: string, y: string, m: bool, rootName: string)
    requires a != b && x != y && Capitalize(a) == Capitalize(b) && Capitalize(rootName) != Capitalize(a)
    ensures var name := Capitalize(a);
      var rootBlock := Block(Capitalize(rootName), Join([PropLine(a, false, name), PropLine(b, false, name)], "\n"));
      var last := Block(name, PropLine(y, false, "number"));
      GenerateTsSpec(Some(PairInput(a, x, n, b, y, m)), rootName) == Join([rootBlock, last, last], "\n\n")
  {
    InferPair(a, x, n, b, y, m);
    CollisionRegistry(a, x, b, y, rootName);
    var root := SObject([(a, Single(x)), (b, Single(y))], {a, b});
    var fin := Render(root, rootName, Empty).1;
    BlocksOfThree(fin);
  }

  /** Three names in `order` print as their stored texts, last name first. */
  lemma BlocksOfThree(reg: Registry)
    requires |reg.order| == 3
    ensures Blocks(reg) == [Lookup(reg, reg.order[2]), Lookup(reg, reg.order[1]), Lookup(reg, reg.order[0])]
  {
    var names := Reverse(reg.order);
    assert names[0] == reg.order[2] && names[1] == reg.order[1] && names[2] == reg.order[0];
  }

  lemma CollisionText()
    ensures var name := "A";
      var rootBlock := Block("Root", Join([PropLine("a", false, name), PropLine("A", false, name)], "\n"));
      var last := Block(name, PropLine("y", false, "number"));
      Join([rootBlock, last, last], "\n\n")
        == "export interface Root {\n  a: A;\n  A: A;\n}\n\n"
         + "export interface A {\n  y: number;\n}\n\n"
         + "export interface A {\n  y: number;\n}"
  {
    CollisionLines();
    CollisionBody();
    CollisionBlocks();
    var rootBlock, last := "export interface Root {\n  a: A;\n  A: A;\n}", "export interface A {\n  y: number;\n}";
    Join3(rootBlock, last, last, "\n\n");
    CollisionJoin(rootBlock, last);
  }

  /** The member lines of `Root`, joined. */
  lemma CollisionBody()
    ensures Join([PropLine("a", false, "A"), PropLine("A", false, "A")], "\n") == "  a: A;\n  A: A;"
  {
    CollisionLines();
    Join2("  a: A;", "  A: A;", "\n");
    assert "  a: A;" + "\n" + "  A: A;" == "  a: A;\n  A: A;";
  }

  lemma CollisionJoin(rootBlock: string, last: string)
    requires rootBlock == "export interface Root {\n  a: A;\n  A: A;\n}" && last == "export interface A {\n  y: number;\n}"
    ensures rootBlock + "\n\n" + (last + "\n\n" + last)
         == "export interface Root {\n  a: A;\n  A: A;\n}\n\n"
          + "export interface A {\n  y: number;\n}\n\n"
          + "export interface A {\n  y: number;\n}"
  {
    assert rootBlock + "\n\n" == "export interface Root {\n  a: A;\n  A: A;\n}\n\n";
    assert last + "\n\n" == "export interface A {\n  y: number;\n}\n\n";
  }

  lemma CollisionLines()
    ensures PropLine("a", false, "A") == "  a: A;"
    ensures PropLine("A", false, "A") == "  A: A;"
    ensures PropLine("y", false, "number") == "  y: number;"
  {
    assert SafeKey("a") == "a" && SafeKey("A") == "A" && SafeKey("y") == "y";
  }

  lemma CollisionBlocks()
    ensures Block("Root", "  a: A;\n  A: A;") == "export interface Root {\n  a: A;\n  A: A;\n}"
    ensures Block("A", "  y: number;") == "export interface A {\n  y: number;\n}"
  {
  }

  /** The collision on `{ "a": { "x": 1 }, "A": { "y": 1 } }` with root name `Root`. */
  lemma NameCollisionExample(a: string, x: string, b: string, y: string, rootName: string)
    requires a == "a" && x == "x" && b == "A" && y == "y" && rootName == "Root"
    ensures GenerateTsSpec(Some(PairInput(a, x, true, b, y, true)), rootName)
         == "export interface Root {\n  a: A;\n  A: A;\n}\n\n"
          + "export interface A {\n  y: number;\n}\n\n"
          + "export interface A {\n  y: number;\n}"
  {
    assert Capitalize(a) == "A" && Capitalize(b) == "A" && Capitalize(rootName) == "Root";
    NameCollision(a, x, true, b, y, true, rootName);
    CollisionText();
  }
}
