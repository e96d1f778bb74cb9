/** The SQL `CREATE TABLE` generator over the shared schema (lib/engine/sql.ts). */
module SqlGen {
  import opened Wrappers
  import opened JsonValue
  import opened Records
  import opened Text
  import opened Ast

  /** The column type of a member schema. */
  function MapType(s: Schema): string
  {
    match s
    case Prim(KNumber) => "DOUBLE PRECISION"
    case Prim(KBoolean) => "BOOLEAN"
    case Prim(KString) => "TEXT"
    case SObject(_, _) => "JSONB"
    case SArray(_) => "JSONB"
    case _ => "TEXT"
  }

  /** `k.replace(/"/g, "")`. */
  function StripQuotes(k: string): string
  {
    if k == [] then ""
    else if k[0] == '"' then StripQuotes(k[1..])
    else [k[0]] + StripQuotes(k[1..])
  }

  /** A column name: the key without its `"` characters, wrapped in `"`. */
  function SafeKey(k: string): string
  {
    "\"" + StripQuotes(k) + "\""
  }

  /** The characters `String.prototype.trim` removes: white space and line terminators. */
  predicate IsTrimmed(c: char)
  {
    || c == '\t' || c == '\n' || c as int == 0x0B || c as int == 0x0C || c == '\r' || c == ' '
    || c as int == 0xA0 || c as int == 0x1680 || (0x2000 <= c as int <= 0x200A)
    || c as int == 0x2028 || c as int == 0x2029 || c as int == 0x202F || c as int == 0x205F
    || c as int == 0x3000 || c as int == 0xFEFF
  }

  function TrimStart(s: string): string
  {
    if s != [] && IsTrimmed(s[0]) then TrimStart(s[1..]) else s
  }

  function TrimEnd(s: string): string
  {
    if s != [] && IsTrimmed(s[|s| - 1]) then TrimEnd(s[..|s| - 1]) else s
  }

  /** `String.prototype.trim`. */
  function Trim(s: string): string
  {
    TrimEnd(TrimStart(s))
  }

  /** `` `  ${safeKey(key)} ${mapType(val)} ${nullable}`.trim() ``. */
  function ColumnLine(key: string, val: Schema, required: set<string>): string
  {
    var nullable := if key in required then "NOT NULL" else "";
    Trim("  " + SafeKey(key) + " " + MapType(val) + " " + nullable)
  }

  function ColumnLines(target: Schema): (lines: seq<string>)
    requires target.SObject?
    ensures |lines| == |target.properties|
  {
    var p := target.properties;
    seq(|p|, i requires 0 <= i < |p| => ColumnLine(p[i].0, p[i].1, target.required))
  }

  const Unsupported := "-- SQL requires an object or array of objects"
  const TableHead := "CREATE TABLE export (\n  id BIGSERIAL PRIMARY KEY,\n"

  function Table(lines: seq<string>): string
  {
    TableHead + Join(lines, ",\n") + "\n);"
  }

  /** `jsonToSql(json)`, with a failed parse as `None`. */
  function JsonToSql(json: Option<Json>): string
  {
    match json
    case None => "-- Invalid JSON"
    case Some(data) => SchemaToSql(Infer(data))
  }

  /** The body of the `try` once the schema is inferred. */
  function SchemaToSql(schema: Schema): string
  {
    if !schema.SObject? && (!schema.SArray? || !schema.items.SObject?) then Unsupported
    else
      var target := if schema.SArray? then schema.items else schema;
      if !target.SObject? then "-- Invalid structure"
      else Table(ColumnLines(target))
  }
}

/** What the SQL generator promises. */
module SqlProperties {
  import opened Wrappers
  import opened JsonValue
  import opened Records
  import opened Text
  import opened Ast
  import opened AstProperties
  import opened SqlGen

  /** Numbers are `DOUBLE PRECISION`, booleans `BOOLEAN`, nested structure `JSONB`, everything else `TEXT`. */
  lemma MapTypeCases(s: Schema)
    ensures MapType(s) == "DOUBLE PRECISION" <==> s == Prim(KNumber)
    ensures MapType(s) == "BOOLEAN" <==> s == Prim(KBoolean)
    ensures MapType(s) == "JSONB" <==> s.SObject? || s.SArray?
    ensures MapType(s) == "TEXT" <==> s in {Prim(KString), Prim(KNull), Prim(KAny)}
  {
  }

  /** The stripped key loses every `"` and keeps every other character, as often as it occurs. */
  lemma StripQuotesSpec(k: string)
    ensures forall i :: 0 <= i < |StripQuotes(k)| ==> StripQuotes(k)[i] != '"'
    ensures multiset(StripQuotes(k)) == multiset(k)[('"') := 0]
    ensures ('"' !in k) ==> StripQuotes(k) == k
  {
    StripQuotesNone(k);
    StripQuotesCount(k);
    StripQuotesClean(k);
  }

  /**
    Stripping works piece by piece: a split key strips to its stripped
    parts, in order, and one character strips to nothing exactly when it
    is `"`.
  */
  lemma {:induction false} StripQuotesAppend(a: string, b: string)
    ensures StripQuotes(a + b) == StripQuotes(a) + StripQuotes(b)
    ensures |a| == 1 ==> StripQuotes(a) == (if a[0] == '"' then "" else a)
  {
    if a == [] {
      assert a + b == b;
    } else {
      assert (a + b)[0] == a[0] && (a + b)[1..] == a[1..] + b;
      StripQuotesAppend(a[1..], b);
      if |a| == 1 {
        assert a[1..] == [];
      }
    }
  }

  lemma {:induction false} StripQuotesNone(k: string)
    ensures forall i :: 0 <= i < |StripQuotes(k)| ==> StripQuotes(k)[i] != '"'
  {
    if k != [] {
      StripQuotesNone(k[1..]);
    }
  }

  lemma {:induction false} StripQuotesCount(k: string)
    ensures multiset(StripQuotes(k)) == multiset(k)[('"') := 0]
  {
    if k != [] {
      StripQuotesCount(k[1..]);
      assert k == [k[0]] + k[1..];
      assert multiset(k) == multiset{k[0]} + multiset(k[1..]);
    }
  }

  lemma {:induction false} StripQuotesClean(k: string)
    ensures ('"' !in k) ==> StripQuotes(k) == k
  {
    if k != [] {
      StripQuotesClean(k[1..]);
      assert k == [k[0]] + k[1..];
    }
  }

  /** A column name holds exactly two `"`, its first and its last character. */
  lemma SafeKeyQuotes(k: string)
    ensures |SafeKey(k)| >= 2
    ensures forall i :: 0 <= i < |SafeKey(k)| ==> (SafeKey(k)[i] == '"' <==> i == 0 || i == |SafeKey(k)| - 1)
  {
    StripQuotesSpec(k);
    var r := SafeKey(k);
    forall i | 0 < i < |r| - 1 ensures r[i] != '"' {
      assert r[i] == StripQuotes(k)[i - 1];
    }
  }

  lemma {:induction false} TrimStartSkips(pad: string, t: string)
    requires forall i :: 0 <= i < |pad| ==> IsTrimmed(pad[i])
    requires t != [] && !IsTrimmed(t[0])
    ensures TrimStart(pad + t) == t
  {
    if pad != [] {
      assert (pad + t)[1..] == pad[1..] + t;
      TrimStartSkips(pad[1..], t);
    }
  }

  lemma TrimEndSkips(t: string, c: char)
    requires t != [] && !IsTrimmed(t[|t| - 1]) && IsTrimmed(c)
    ensures TrimEnd(t + [c]) == t
  {
    assert (t + [c])[..|t|] == t;
  }

  lemma MapTypeLast(s: Schema)
    ensures MapType(s) != [] && !IsTrimmed(MapType(s)[|MapType(s)| - 1])
  {
  }

  lemma ColumnText(sk: string, mt: string, req: bool)
    requires sk != [] && sk[0] == '"' && mt != [] && !IsTrimmed(mt[|mt| - 1])
    ensures Trim("  " + sk + " " + mt + " " + (if req then "NOT NULL" else ""))
         == sk + " " + mt + (if req then " NOT NULL" else "")
  {
    var core := sk + " " + mt + (if req then " NOT NULL" else "");
    assert core[0] == '"';
    if req {
      assert core[|core| - 1] == 'L';
      assert "  " + sk + " " + mt + " " + "NOT NULL" == "  " + core;
      TrimStartSkips("  ", core);
    } else {
      assert core[|core| - 1] == mt[|mt| - 1];
      assert "  " + sk + " " + mt + " " + "" == "  " + (core + " ");
      TrimStartSkips("  ", core + " ");
      TrimEndSkips(core, ' ');
    }
  }

  /** A column line is `"key" TYPE`, followed by ` NOT NULL` exactly when the key is required. */
  lemma ColumnLineShape(key: string, val: Schema, required: set<string>)
    ensures ColumnLine(key, val, required) ==
      SafeKey(key) + " " + MapType(val) + (if key in required then " NOT NULL" else "")
  {
    MapTypeLast(val);
    ColumnText(SafeKey(key), MapType(val), key in required);
  }

  /** So no column line has leading indentation or trailing space. */
  lemma ColumnLineTrimmed(key: string, val: Schema, required: set<string>)
    ensures var line := ColumnLine(key, val, required);
      line != [] && !IsTrimmed(line[0]) && !IsTrimmed(line[|line| - 1])
  {
    ColumnLineShape(key, val, required);
  }

  /** The schemas a table is built from: an object, or an array whose item schema is an object. */
  predicate IsTableSchema(s: Schema)
  {
    s.SObject? || (s.SArray? && s.items.SObject?)
  }

  /** The sentinel is returned exactly for parsed input whose schema is no table. */
  lemma SqlUnsupported(schema: Schema)
    ensures SchemaToSql(schema) == Unsupported <==> !IsTableSchema(schema)
    ensures SchemaToSql(schema) != "-- Invalid structure"
  {
    if IsTableSchema(schema) {
      var target := if schema.SArray? then schema.items else schema;
      var body := Join(ColumnLines(target), ",\n") + "\n);";
      assert Table(ColumnLines(target)) == TableHead + body;
      assert |TableHead + body| > |Unsupported|;
    }
  }

  /**
    For a table schema the output is the fixed frame around one column line
    per member of the target object, in insertion order, each carrying
    ` NOT NULL` exactly when its key is required.
  */
  lemma SqlColumns(schema: Schema)
    requires IsTableSchema(schema)
    ensures var target := if schema.SArray? then schema.items else schema;
      var lines := ColumnLines(target);
      && SchemaToSql(schema) == TableHead + Join(lines, ",\n") + "\n);"
      && |lines| == |target.properties|
      && forall i :: 0 <= i < |lines| ==>
           lines[i] == SafeKey(target.properties[i].0) + " " + MapType(target.properties[i].1)
                       + (if target.properties[i].0 in target.required then " NOT NULL" else "")
  {
    var target := if schema.SArray? then schema.items else schema;
    forall i | 0 <= i < |target.properties|
      ensures ColumnLines(target)[i] == SafeKey(target.properties[i].0) + " " + MapType(target.properties[i].1)
                       + (if target.properties[i].0 in target.required then " NOT NULL" else "")
    {
      ColumnLineShape(target.properties[i].0, target.properties[i].1, target.required);
    }
  }

  /**
    An array of objects: the columns are the keys of any sampled row, and a
    column is `NOT NULL` exactly when every sampled row has the key.
  */
  lemma SqlArrayOfObjects(elems: seq<Json>)
    requires |elems| > 0
    requires forall i :: 0 <= i < Min(|elems|, SampleSize) ==> elems[i].JObj?
    ensures var target := Infer(JArr(elems)).items;
      var n := Min(|elems|, SampleSize);
      && target.SObject?
      && (forall k :: k in KeySet(target.properties) <==> exists i :: 0 <= i < n && k in KeySet(elems[i].fields))
      && forall j :: 0 <= j < |target.properties| ==>
           var key := target.properties[j].0;
           (ColumnLine(key, target.properties[j].1, target.required)
              == SafeKey(key) + " " + MapType(target.properties[j].1) + " NOT NULL"
            <==> forall i :: 0 <= i < n ==> key in KeySet(elems[i].fields))
  {
    ArrayOfObjects(elems);
    var target := Infer(JArr(elems)).items;
    var n := Min(|elems|, SampleSize);
    forall j | 0 <= j < |target.properties|
      ensures var key := target.properties[j].0;
        (ColumnLine(key, target.properties[j].1, target.required)
           == SafeKey(key) + " " + MapType(target.properties[j].1) + " NOT NULL"
         <==> forall i :: 0 <= i < n ==> key in KeySet(elems[i].fields))
    {
      var key := target.properties[j].0;
      ColumnLineShape(key, target.properties[j].1, target.required);
      var base := SafeKey(key) + " " + MapType(target.properties[j].1);
      if key !in target.required {
        assert |base + ""| < |base + " NOT NULL"|;
      }
    }
  }

  /** An object without members leaves an empty line after the id column. */
  lemma SqlNoColumns(required: set<string>)
    ensures SchemaToSql(SObject([], required)) == "CREATE TABLE export (\n  id BIGSERIAL PRIMARY KEY,\n\n);"
  {
    assert ColumnLines(SObject([], required)) == [];
  }

  lemma SqlInvalid()
    ensures JsonToSql(None) == "-- Invalid JSON"
  {
  }
}
