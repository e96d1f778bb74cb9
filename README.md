# typezero code generators, modelled in Dafny

typezero turns a JSON sample into source code that describes its shape.
This project models the repository's generators as Dafny functions, methods
and classes, and proves what they promise.

The parsed document is the `Json` datatype (`json.dfy`). It keeps only what
the generators ever look at:
- the six value kinds;
- for numbers, whether they are integers;
- object members in insertion order.

A document that does not parse is `None`, and each generator maps it to its
own sentinel string.

The modules follow the source files:

| module | source | what it is |
|---|---|---|
| `Ast`, `AstProperties` | lib/engine/ast.ts | The shared `Schema` tree. `Infer` and `Merge` specify `inferSchema` and `mergeSchemas`. The methods `InferSchema`, `InferSample`, `InferObjectSchema`, `MergeSchemas` and `MergeObjectSchemas` are the source's loops, proved to compute them. |
| `TypeScriptGen`, `TypeScriptProperties` | lib/engine/typescript.ts | `Signature` is `signatureOf`. `Render` specifies the `render` closure over a `Registry`, which holds its `interfaces` map, its `signatureMap` and its `order` list. `TsEmitter` is the closure as a class with those three fields. |
| `Collation` | lib/engine/typescript.ts:14 | The key order and the stable sort used before a signature is built. |
| `ZodGen`, `ZodProperties` | lib/engine/zod.ts | `render` over the shared schema. |
| `SqlGen`, `SqlProperties` | lib/engine/sql.ts | `mapType`, `safeKey`, `trim` and `jsonToSql`. |
| `PydanticGen`, `PydanticProperties` | lib/engine/pydantic.ts | `infer` with its `forEach` loop (`InferClass`). `PyEmitter` is `buildClasses` as a class over `classes` and `seenClasses`. |
| `TypesGen`, `TypesProperties` | lib/engine/types.ts | The older generator. `inferType`, `inferArray` and `inferObject` are methods, specified by `TypeDefOf`, `ArrayDef` and `ObjectDef`. `InterfaceRenderer` is the `traverse` closure over its `interfaces` map. |
| `TsTransformer`, `TsTransformerProperties` | lib/transformer.ts | `jsonToTs`. `TsParser` is the `parse` closure over its `interfaces` list. |
| `ZodTransformer`, `ZodTransformerProperties` | lib/zodTransformer.ts | `jsonToZod`. `RenderValue` is `parse` with its `props +=` loop. |
| `Records`, `Text`, `Wrappers`, `JsonValue` | — | Shared helpers. |

`Records` models a JavaScript object used as a dictionary, and a `Map`.
- A record is a sequence of key/value pairs in insertion order.
- `Put` is assignment: an existing key keeps its place and gets the new value; a new key is appended.
- `PutAll` is a run of such assignments.

That is also how `JSON.parse` treats a repeated key, and `Members` (`json.dfy`) is the parsed object's `Object.keys` view of it.

Behaviour of the code as written that the lemmas pin down:
- **typescript.ts:** an interface is reused by structural signature. Two different shapes that get the same name produce two blocks with that name (`NameCollision`, `NameCollisionExample`).
- **pydantic.ts:** classes are deduplicated by name only. When a nested class takes the root's capitalized name first, the root's own class is never written (`ShadowedRoot`, `ShadowedRootExample`).
- **types.ts:** a nested interface that takes the root's name first is overwritten in place by the root's block (`RootFirst`).
- **transformer.ts:** an array whose element 0 is an array of scalars (or an empty one) is named after the singular of its hint plus `[]`, yet parsing it pushes no interface of that name (`NestedArrayName`).
- **transformer.ts:** an empty array is `undefined[]`, and an array led by `null` is `object[]` (`ArrayCases`).
- **sql.ts:** the `-- Invalid structure` branch is modelled in `SchemaToSql`, and `SqlUnsupported` proves it is never taken, since a schema that passes the first test has an object target.
- **pydantic.ts:** the `Optional` rendering is modelled in `RenderType`, but inference never produces `Optional` (`InferNoOptional`), so that branch is never taken.
- **zodTransformer.ts:** `null` is `z.any()`, and every object member line ends with a comma (`AgreesWithEngineOnScalars`, `ObjectShape`).

## Model

| member | source | states |
|---|---|---|
| JsonValue.TypeOf | lib/transformer.ts:23 | `typeof` of a parsed value: "object" for `null`, arrays and objects, otherwise "string", "number" or "boolean". |
| JsonValue.Members | lib/transformer.ts:21-22 | `Object.keys(obj)` with `obj[key]` on a parsed object: each key once, at its first position, with its last value. |
| Records.Keys | lib/engine/ast.ts:24 | `Object.keys` of a record: its keys in insertion order. |
| Records.KeySet | lib/engine/ast.ts:29-32 | The keys for which `r[key]` is defined. |
| Records.DistinctKeys | lib/engine/ast.ts:4 | A JavaScript object holds each key at most once. |
| Records.IndexOf | lib/engine/ast.ts:29 | Where `r[key]` is found: the first position holding the key, or -1 when the key is absent. |
| Records.Get | lib/engine/ast.ts:29-30 | `r[key]`: the value stored under the key, or `None` for `undefined`. |
| Records.PutAll | lib/engine/ast.ts:72-75 | A run of assignments `r[key] = value`, in order. |
| Text.UpperAscii | lib/engine/typescript.ts:3 | `toUpperCase` on one character: ASCII lower-case letters become upper-case, everything else is kept. |
| Text.Join | lib/engine/typescript.ts:48 | `Array.prototype.join`: the parts with the separator between consecutive ones, `""` for no parts. |
| Text.Reverse | lib/engine/typescript.ts:65 | `Array.prototype.reverse`: the elements in the opposite order. |
| Text.Concat | lib/transformer.ts:20-34 | Strings appended one after another, as the `output +=` statements build them. |
| Ast.IsPlainObject | lib/engine/ast.ts:6-7 | `isPlainObject` holds exactly for objects: not for null and not for arrays. |
| Ast.TypeTag | lib/engine/ast.ts:1-4 | The `type` field of each schema variant: five primitive tags, `array` and `object`. |
| Text.Capitalize | lib/engine/typescript.ts:3 | The first character is upper-cased (ASCII letters only). The rest and the length are unchanged. |
| Text.Singular | lib/transformer.ts:13 | A name ending in `s` loses that one `s`. Any other name gets `Item` appended. |
| Records.Put | lib/engine/types.ts:113 | `Map.set`: an existing key keeps its position and gets the new value, and a new key is appended. No other key's value changes, and keys stay distinct. |
| Records.PutAllFresh | lib/engine/types.ts:76-78 | Assigning distinct new keys one by one appends them in order. |
| JsonValue.MembersDistinct | lib/transformer.ts:21 | Without repeated keys, `Object.keys` visits the members exactly as written. |
| JsonValue.FirstTypeOf | lib/transformer.ts:10-17 | `typeof obj[0]` is `undefined` exactly when the array is empty. |
| Ast.Dedup | lib/engine/ast.ts:23-26 | A `Set` built from a sequence has the same members, and each only once. It is the input itself when the input has no repeats. |
| Ast.UnionKeys | lib/engine/ast.ts:23-26 | The merge's key set is the union of both key sets, without repeats. |
| Ast.Merge | lib/engine/ast.ts:9-46 | `mergeSchemas`: `any` yields the other side, different type tags give `any`, arrays merge their items, objects merge key by key, and equal primitives give the left operand. |
| Ast.MergedValue | lib/engine/ast.ts:29-39 | A key present on both sides gets the merge of its two schemas. A one-sided key keeps the schema it has. |
| Ast.MergedProperties | lib/engine/ast.ts:28-40 | The merged object has one entry per key of the union, in union order. |
| Ast.MergedRequired | lib/engine/ast.ts:34-36 | A key is required in the merge when it is present and required on both sides. |
| Ast.WellFormed | lib/engine/ast.ts:1-4 | The shape every schema the code builds has: `required` holds only keys of `properties`, and keys are distinct, at every depth. |
| Ast.MergeSchemas | lib/engine/ast.ts:9-46 | The recursive merge computes `Merge`. |
| Ast.MergeObjectSchemas | lib/engine/ast.ts:19-43 | The object branch's `for` loop builds exactly the merged properties and the merged `required` set. |
| Ast.Infer | lib/engine/ast.ts:48-85 | `inferSchema`: `null` and the scalars get their tag, an empty array has `any` items, a non-empty one the fold of the merge over its sample, and an object one entry per member with every key required. |
| Ast.InferredEntries | lib/engine/ast.ts:72-75 | One entry per member of the object, in order, with that member's inferred schema. |
| Ast.MergeAll | lib/engine/ast.ts:60-63 | The first sampled schema, merged left to right with each later one. |
| Ast.Min | lib/engine/ast.ts:58 | The length of `data.slice(0, SAMPLE_SIZE)`: the smaller of the length and 50. |
| Ast.SampleSchemas | lib/engine/ast.ts:56-58 | The sample has min(length, 50) schemas. |
| Ast.InferSchema | lib/engine/ast.ts:48-85 | `inferSchema` computes `Infer`. |
| Ast.InferSample | lib/engine/ast.ts:60-63 | The sampling loop folds `mergeSchemas` over the sampled schemas, left to right. |
| Ast.InferObjectSchema | lib/engine/ast.ts:68-78 | The `for … of Object.entries` loop computes `Infer` of the object. |
| AstProperties.MergeCases | lib/engine/ast.ts:10-17 | Merging with `any` returns the other side. Different kinds merge to `any`. Equal primitives give the left operand. Arrays merge their items. |
| AstProperties.MergeObjects | lib/engine/ast.ts:19-42 | Merged keys are the union, without repeats. A key is required iff it is present and required on both sides. A one-sided key keeps its schema and becomes optional. A shared key merges recursively. |
| AstProperties.MergeWellFormed | lib/engine/ast.ts:19-43 | Merging preserves `required ⊆ keys` and distinct keys at every depth. |
| AstProperties.InferWellFormed | lib/engine/ast.ts:48-85 | Every inferred schema has `required ⊆ keys` and distinct keys at every depth. |
| AstProperties.DedupAbsorbs | lib/engine/ast.ts:23-26 | Adding keys already in a set leaves the set and its order unchanged. |
| AstProperties.MergeIdempotent | lib/engine/ast.ts:9-46 | Merging a well-formed schema with itself returns it unchanged. |
| AstProperties.MergeSwap | lib/engine/ast.ts:23-39 | Swapping the operands keeps whether the merge is an object, and then keeps its key set and its `required` set. |
| AstProperties.InferObjectRequired | lib/engine/ast.ts:68-77 | An inferred object requires every one of its keys, and those are the keys of the input object. |
| AstProperties.InferObjectMembers | lib/engine/ast.ts:72-75 | With distinct keys, an inferred object has one member per input member, in order, each being the inferred value. |
| AstProperties.InferArray | lib/engine/ast.ts:51-65 | An empty array has `any` items. Otherwise the items are the merge of the sampled element schemas. |
| AstProperties.InferSampleCap | lib/engine/ast.ts:57-58 | Elements after the 50th never change the inferred schema. |
| AstProperties.MergeAllObjects | lib/engine/ast.ts:60-63 | Folding the merge over objects gives an object. Its keys are those in some sample; its required keys are those required in every sample. |
| AstProperties.ArrayOfObjects | lib/engine/ast.ts:51-65 | For an array of objects, a key is present iff some sampled element has it, and required iff every sampled element has it. |
| Collation.Less | lib/engine/typescript.ts:14 | The key order that `localeCompare` stands for: code-point lexicographic order. |
| Collation.Sorted | lib/engine/typescript.ts:14 | The entries are in non-decreasing key order, as `.sort` leaves them. |
| Collation.StrictlySorted | lib/engine/typescript.ts:14 | The keys are in strictly increasing order. |
| Collation.LessIrreflexive | lib/engine/typescript.ts:14 | The key order is irreflexive. |
| Collation.LessAsymmetric | lib/engine/typescript.ts:14 | The key order is asymmetric. |
| Collation.LessTransitive | lib/engine/typescript.ts:14 | The key order is transitive. |
| Collation.LessTotal | lib/engine/typescript.ts:14 | The key order is total on distinct strings. |
| Collation.Insert | lib/engine/typescript.ts:14 | Inserting one entry is a permutation that adds it. |
| Collation.SortByKey | lib/engine/typescript.ts:13-14 | Sorting the entries is a permutation of them. |
| Collation.SortByKeyProperties | lib/engine/typescript.ts:13-14 | The sorted entries are ordered by key and have the same keys, distinct when the input's were. |
| Collation.InsertSorted | lib/engine/typescript.ts:14 | Inserting into a key-sorted list keeps it sorted. |
| Collation.StrictlySortedUnique | lib/engine/typescript.ts:13-14 | Two strictly increasing key lists with the same elements are equal. |
| Collation.SortedPermutationUnique | lib/engine/typescript.ts:13-14 | With distinct keys there is only one sorted arrangement of a set of entries. |
| Collation.SortMapValues | lib/engine/typescript.ts:14-15 | Mapping the values commutes with sorting by key. |
| Collation.MapValues | lib/engine/typescript.ts:15 | The `.map(([k, v]) => [k, signatureOf(v)])` step: each key kept, each value mapped. |
| TypeScriptGen.IsIdentStart | lib/engine/typescript.ts:7 | The class `[a-zA-Z_]`. |
| TypeScriptGen.IsIdentPart | lib/engine/typescript.ts:7 | The class `[a-zA-Z0-9_]`. |
| TypeScriptGen.IsIdentifier | lib/engine/typescript.ts:7 | The test `/^[a-zA-Z_][a-zA-Z0-9_]*$/`: a letter or `_`, then letters, digits or `_`. |
| TypeScriptGen.SafeKey | lib/engine/typescript.ts:6-7 | A key is printed bare iff it is an identifier; otherwise it is wrapped in `"`. |
| TypeScriptGen.HexDigit | lib/engine/typescript.ts:12 | The lower-case hexadecimal digit `JSON.stringify` writes in `\u00XX`. |
| TypeScriptGen.EscapeChar | lib/engine/typescript.ts:12 | How `JSON.stringify` writes one character in a string: `\"`, `\\`, the short escapes `\b \f \n \r \t`, `\u00XX` for other control characters, and the character itself otherwise. |
| TypeScriptGen.Escape | lib/engine/typescript.ts:12 | The escaping `JSON.stringify` applies inside a string: `"` and `\` get a backslash, control characters their short or `\u` form. |
| TypeScriptGen.Quote | lib/engine/typescript.ts:12 | `JSON.stringify` of one string: the escaped text between `"`. |
| TypeScriptGen.EntryText | lib/engine/typescript.ts:12-15 | `JSON.stringify` of one `[key, signature]` pair. |
| TypeScriptGen.Signature | lib/engine/typescript.ts:10-17 | `signatureOf`: a non-object's type tag; for an object, the JSON text of its entries sorted by key, each paired with its own signature. |
| TypeScriptGen.EntryTexts | lib/engine/typescript.ts:12-16 | A signature has one entry per member. |
| TypeScriptGen.Keyword | lib/engine/typescript.ts:56-60 | The keyword a primitive node renders as. |
| TypeScriptGen.PropLine | lib/engine/typescript.ts:45-46 | One member line: two spaces, the safe key, `?` when optional, `: `, the type text and `;`. |
| TypeScriptGen.Block | lib/engine/typescript.ts:50 | The `export interface` declaration stored for a name. |
| TypeScriptGen.Render | lib/engine/typescript.ts:28-61 | `render` over the closure's three fields: arrays add `[]` to their items' text, a known signature returns its name, a new one is registered under the capitalized name before the members are rendered and pushed after them. |
| TypeScriptGen.RenderProps | lib/engine/typescript.ts:43-48 | The member `map`: members rendered left to right, each line marked optional when its key is not required, the registry threaded through. |
| TypeScriptGen.Blocks | lib/engine/typescript.ts:65 | The output has one block per name in `order`. |
| TypeScriptGen.Lookup | lib/engine/typescript.ts:65 | `interfaces.get(name)`, which `join` prints as nothing when absent. |
| TypeScriptGen.GenerateTsSpec | lib/engine/typescript.ts:19-69 | `generateTs`: render the inferred root, then join the reversed `order`'s blocks by blank lines; `// Invalid JSON` when parsing fails. |
| TypeScriptGen.TsEmitter.constructor | lib/engine/typescript.ts:24-26 | The closure starts with empty maps and an empty `order`. |
| TypeScriptGen.TsEmitter.RenderNode | lib/engine/typescript.ts:28-61 | `render` returns `Render`'s text, and leaves the three fields in `Render`'s registry. |
| TypeScriptGen.TsEmitter.RenderProperties | lib/engine/typescript.ts:43-48 | The member `map` renders the members left to right, threading the registry. |
| TypeScriptGen.GenerateTs | lib/engine/typescript.ts:19-69 | `generateTs` returns `GenerateTsSpec`: the reversed `order`'s blocks joined by blank lines, or `// Invalid JSON`. |
| TypeScriptProperties.UnescapeEscape | lib/engine/typescript.ts:12 | The string escaping that `JSON.stringify` does has an inverse: unescaping an escaped string returns it. |
| TypeScriptProperties.EscapePlain | lib/engine/typescript.ts:12 | Strings without `"`, `\` or control characters are not changed by escaping. |
| TypeScriptProperties.QuoteInjective | lib/engine/typescript.ts:12 | Different keys are quoted differently. |
| TypeScriptProperties.SameSkeletonSameSignature | lib/engine/typescript.ts:10-17 | The signature ignores `required`: two schemas that differ only there have the same signature. |
| TypeScriptProperties.SignatureSkeleton | lib/engine/typescript.ts:10-17 | The signature ignores `required` at every depth. |
| TypeScriptProperties.SignatureGrows | lib/engine/typescript.ts:12-16 | An object's signature is longer than any member's, so an object never shares a signature with one of its members. |
| TypeScriptProperties.SignatureOrderFree | lib/engine/typescript.ts:13-15 | A signature does not depend on member order. |
| TypeScriptProperties.SignatureShape | lib/engine/typescript.ts:10-17 | A non-object's signature is its type tag. An object's is a bracketed list, never equal to a type tag. |
| TypeScriptProperties.SignatureSingleInjective | lib/engine/typescript.ts:12-16 | One-member objects with different keys have different signatures. |
| TypeScriptProperties.RenderReuses | lib/engine/typescript.ts:36-38 | An object whose signature is already registered returns the registered name and changes nothing. |
| TypeScriptProperties.RenderNonObject | lib/engine/typescript.ts:29-31 | Primitives render as their keyword, and arrays as their items' text plus `[]`. |
| TypeScriptProperties.RenderFresh | lib/engine/typescript.ts:40-53 | A new signature is registered under the capitalized name before the members are rendered. The block is stored and the name pushed after them. |
| TypeScriptProperties.PropLineMarker | lib/engine/typescript.ts:45-46 | A member line starts with the safe key, then has `?` exactly when the member is optional. |
| TypeScriptProperties.RenderPropsLines | lib/engine/typescript.ts:43-47 | There is one member line per member, in order, each marked optional exactly when its key is not required. |
| TypeScriptProperties.RenderExtends | lib/engine/typescript.ts:28-61 | `render` only extends the registry. Names stay bound, `order` grows at its end by one name per new signature, and every name in `order` has a block. |
| TypeScriptProperties.RenderRegisters | lib/engine/typescript.ts:33-41 | Only signatures of objects inside the node get registered. |
| TypeScriptProperties.RenderRootLast | lib/engine/typescript.ts:33-53 | When the root's innermost node is a new object, its capitalized name is pushed last. |
| TypeScriptProperties.GenerateTsBlocks | lib/engine/typescript.ts:63-65 | The output has one block per registered signature, in reverse push order. |
| TypeScriptProperties.GenerateTsRootFirst | lib/engine/typescript.ts:63-65 | The root interface opens the output. |
| TypeScriptProperties.GenerateTsInvalid | lib/engine/typescript.ts:66-67 | Input that does not parse yields `// Invalid JSON`. |
| TypeScriptProperties.NameCollision | lib/engine/typescript.ts:40-51 | Two shapes whose keys capitalize alike get one name. The name is pushed twice and the later block overwrites the first. |
| TypeScriptProperties.NameCollisionExample | lib/engine/typescript.ts:40-51 | `{"a":{"x":1},"A":{"y":1}}` prints interface `A` twice, both times with member `y`. |
| TypeScriptProperties.CollisionRegistry | lib/engine/typescript.ts:36-52 | After two colliding shapes, `order` holds the shared name twice and then the root's name. The map keeps only the later block under the shared name. |
| ZodGen.Render | lib/engine/zod.ts:3-17 | `render`: primitives as `z.<tag>()`, arrays as `z.array(…)` of their items, objects as `z.object({…})` of their member lines. |
| ZodGen.MemberLines | lib/engine/zod.ts:11-13 | One `  key: rendering` line per member, in insertion order, keys bare. |
| ZodGen.JsonToZod | lib/engine/zod.ts:19-25 | `jsonToZod`: the import and `export const schema = ` around the rendering of the inferred schema; `// Invalid JSON` when parsing fails. |
| ZodProperties.RenderPrimitive | lib/engine/zod.ts:4-8 | A primitive renders as `z.<type tag>()`, including `any` (line 15). |
| ZodProperties.RenderIsCall | lib/engine/zod.ts:3-17 | Every rendering starts with `z.` and ends with `)`. |
| ZodProperties.RenderArray | lib/engine/zod.ts:9 | An array renders as `z.array(` around its items' rendering, then `)`. The items' rendering can be read back from it, so different item renderings give different array renderings. |
| ZodProperties.RenderObjectShape | lib/engine/zod.ts:10-14 | An object renders as `z.object({\n`, its member lines joined by `,\n`, then `\n})`. There is one line per member in insertion order, each the bare key, `: ` and the member's own rendering. |
| ZodProperties.RenderIgnoresRequired | lib/engine/zod.ts:3-17 | Rendering never reads `required`, so optional members get no `.optional()`. |
| ZodProperties.RenderObjectRequiredFree | lib/engine/zod.ts:10-14 | Two objects that differ only in `required` render alike. |
| ZodProperties.JsonToZodFrame | lib/engine/zod.ts:19-24 | The output is the import and `export const schema = `, then the rendering and `;`. Input that does not parse yields `// Invalid JSON`. |
| SqlGen.MapType | lib/engine/sql.ts:6-20 | `mapType`: the column type of a member schema. |
| SqlGen.StripQuotes | lib/engine/sql.ts:23 | `k.replace(/"/g, "")`. |
| SqlGen.SafeKey | lib/engine/sql.ts:22-23 | `safeKey`: the key without its `"`, wrapped in `"`. |
| SqlGen.IsTrimmed | lib/engine/sql.ts:39 | The white space and line terminators `String.prototype.trim` removes. |
| SqlGen.TrimStart | lib/engine/sql.ts:39 | The leading white space and line terminators removed. |
| SqlGen.TrimEnd | lib/engine/sql.ts:39 | The trailing white space and line terminators removed. |
| SqlGen.Trim | lib/engine/sql.ts:39 | `String.prototype.trim`: leading and trailing such characters removed. |
| SqlGen.ColumnLine | lib/engine/sql.ts:37-40 | One column: the trimmed `  "key" TYPE nullable` text, with `NOT NULL` when the key is required. |
| SqlGen.ColumnLines | lib/engine/sql.ts:37-40 | One column line per member of the target object, in order. |
| SqlGen.Table | lib/engine/sql.ts:42-45 | The `CREATE TABLE export` statement: the fixed head, the column lines joined by `,\n`, then `);`. |
| SqlGen.SchemaToSql | lib/engine/sql.ts:30-45 | The `try` body after inference: the "requires an object" sentinel unless the schema is an object or an array of objects, `-- Invalid structure` when the target is not an object, else the table of the target. |
| SqlGen.JsonToSql | lib/engine/sql.ts:25-49 | `jsonToSql`: the statement for the inferred schema; `-- Invalid JSON` when parsing fails. |
| SqlProperties.MapTypeCases | lib/engine/sql.ts:6-20 | Each column type occurs exactly for its kinds: `DOUBLE PRECISION`, `BOOLEAN`, `JSONB` for objects and arrays, `TEXT` for the rest. |
| SqlProperties.StripQuotesSpec | lib/engine/sql.ts:22-23 | Removing `"` leaves no `"`, keeps every other character as often as it occurs, and leaves a key without `"` unchanged. |
| SqlProperties.StripQuotesAppend | lib/engine/sql.ts:23 | The `"` removal works piece by piece: a concatenation strips to the concatenation of the stripped parts, so the kept characters stay in order. One character strips to nothing exactly when it is `"`. |
| SqlProperties.SafeKeyQuotes | lib/engine/sql.ts:22-23 | A column name has exactly two `"`: its first and last characters. |
| SqlProperties.ColumnLineShape | lib/engine/sql.ts:37-40 | After `trim`, a column line is `"key" TYPE`, plus ` NOT NULL` exactly when the key is required. |
| SqlProperties.ColumnLineTrimmed | lib/engine/sql.ts:39 | A column line has no leading or trailing white space. |
| SqlProperties.SqlUnsupported | lib/engine/sql.ts:30-35 | The "requires an object" sentinel appears exactly when the schema is neither an object nor an array of objects. `-- Invalid structure` never appears. |
| SqlProperties.SqlColumns | lib/engine/sql.ts:34-45 | A table has the fixed head and one column line per member of the target object, in order. |
| SqlProperties.SqlArrayOfObjects | lib/engine/sql.ts:34-40 | For an array of objects, a column exists iff some sampled row has that key, and a column is `NOT NULL` iff every sampled row has it. |
| SqlProperties.SqlNoColumns | lib/engine/sql.ts:42-45 | An object with no members leaves an empty line after the id column. |
| SqlProperties.SqlInvalid | lib/engine/sql.ts:46-48 | Input that does not parse yields `-- Invalid JSON`. |
| PydanticGen.Infer | lib/engine/pydantic.ts:12-38 | `infer`: `None`, `str`, `bool`, `int` or `float` for scalars, a `List` of element 0's type named with `Item` appended, or `List[Any]` when empty, and a class named by the capitalized name for an object. |
| PydanticGen.InferredFields | lib/engine/pydantic.ts:23-27 | One inferred field per member, with the member's key. |
| PydanticGen.InferType | lib/engine/pydantic.ts:12-38 | `infer` computes `Infer`. |
| PydanticGen.InferClass | lib/engine/pydantic.ts:22-29 | The `forEach` assigning `fields[key]` builds the class `Infer` gives for the object. |
| PydanticGen.FieldLines | lib/engine/pydantic.ts:68-74 | There is one field line per field. |
| PydanticGen.RenderType | lib/engine/pydantic.ts:49-54 | `renderType`: `List[…]` and `Optional[…]` around the item, a class by its name, any other type by its tag. |
| PydanticGen.ClassText | lib/engine/pydantic.ts:68-76 | The pushed class text: the header, then the field lines joined by newlines, or `    pass` when there are none. |
| PydanticGen.Build | lib/engine/pydantic.ts:57-78 | `buildClasses`: a list builds its item; a class builds its fields first, then is pushed and marked seen unless its name was seen; other types change nothing. |
| PydanticGen.BuildFields | lib/engine/pydantic.ts:62 | `Object.values(t.fields).forEach(buildClasses)` from one field on. |
| PydanticGen.Pydantic | lib/engine/pydantic.ts:41-95 | `jsonToPydantic`: the imports, then the classes `buildClasses` pushed, joined by blank lines; `# Invalid JSON` when parsing fails. |
| PydanticGen.PyEmitter.constructor | lib/engine/pydantic.ts:46-47 | `classes` and `seenClasses` start empty. |
| PydanticGen.PyEmitter.BuildClasses | lib/engine/pydantic.ts:57-78 | `buildClasses` leaves `classes` and `seenClasses` in the state `Build` gives. |
| PydanticGen.PyEmitter.BuildFieldClasses | lib/engine/pydantic.ts:62 | `Object.values(t.fields).forEach(buildClasses)` builds the fields left to right. |
| PydanticGen.JsonToPydantic | lib/engine/pydantic.ts:41-95 | `jsonToPydantic` returns `Pydantic`: the imports followed by the classes joined by blank lines, or `# Invalid JSON`. |
| PydanticProperties.InferPrimitive | lib/engine/pydantic.ts:13-35 | `null` is `None`, strings `str`, booleans `bool`. Numbers are `int` iff integral, else `float`. |
| PydanticProperties.InferArray | lib/engine/pydantic.ts:15-20 | An empty list is `List[Any]`. Only element 0 decides the item type, which is named with the suffix `Item`. |
| PydanticProperties.InferObject | lib/engine/pydantic.ts:22-29 | An object is a class named by the capitalized name, with one field per key in order. |
| PydanticProperties.InferNoOptional | lib/engine/pydantic.ts:12-38 | Inference never produces `Optional`. |
| PydanticProperties.RenderTypeShape | lib/engine/pydantic.ts:49-54 | A class is annotated by its name alone, whatever its fields. A list is `List[` around its item's annotation and an `Optional` is `Optional[` around it, and the item's annotation can be read back. Each other kind starts with its own character. |
| PydanticProperties.RenderTypeInjective | lib/engine/pydantic.ts:49-54 | Two types without classes that get the same annotation are the same type. |
| PydanticProperties.BuildSeen | lib/engine/pydantic.ts:57-66 | Building adds exactly the class names inside the type to the seen set. |
| PydanticProperties.BuildInv | lib/engine/pydantic.ts:57-78 | Building keeps the invariant. One class text per distinct name, each rendering its definition. Each class mentions only classes emitted before it. |
| PydanticProperties.PydanticClasses | lib/engine/pydantic.ts:57-90 | The output is the imports plus one class per distinct class name, written children first, each class matching its definition. |
| PydanticProperties.PydanticHeaderOnly | lib/engine/pydantic.ts:82-90 | The output is the imports alone exactly when no class is visited, which never happens for an object root. |
| PydanticProperties.RootLast | lib/engine/pydantic.ts:60-76 | Unless a nested class took its name, the root's class is written last. |
| PydanticProperties.ClassTextShape | lib/engine/pydantic.ts:68-76 | A class with no fields is `pass`. Otherwise its field lines are joined by newlines, starting with the first key. |
| PydanticProperties.PydanticInvalid | lib/engine/pydantic.ts:92-93 | Input that does not parse yields `# Invalid JSON`. |
| PydanticProperties.CapitalizeIdempotent | lib/engine/pydantic.ts:9 | Capitalizing twice is capitalizing once. |
| PydanticProperties.ShadowedRoot | lib/engine/pydantic.ts:64-66 | When a member's capitalized key equals the capitalized root name, only the member's class is written, under that name. |
| PydanticProperties.ShadowedRootExample | lib/engine/pydantic.ts:64-66 | `{"root":{"a":1}}` with root name `Root` yields only `class Root` with field `a: int`. |
| TypesGen.Leaf | lib/engine/types.ts:3-8 | A definition with only its `type`. |
| TypesGen.TypeDefOf | lib/engine/types.ts:21-26 | `inferType`: `null` is "null", arrays go to `inferArray`, objects to `inferObject`, and the rest are their `typeof`. |
| TypesGen.ObjectDef | lib/engine/types.ts:73-79 | `inferObject`: an "object" node whose properties assign each key its inferred node, in order. |
| TypesGen.PropEntries | lib/engine/types.ts:75-77 | Each member of the object paired with its inferred node. |
| TypesGen.Sample | lib/engine/types.ts:33 | The nodes of the first 50 elements. |
| TypesGen.ArrayDef | lib/engine/types.ts:28-71 | `inferArray`: "any[]" when empty, otherwise the node `ArrayOf` builds from the sample. |
| TypesGen.Uniform | lib/engine/types.ts:36-37 | The first test: every sampled node has element 0's type, and it is not "object". |
| TypesGen.ObjectsOrNulls | lib/engine/types.ts:42 | The second test: every sampled node is "object" or "null". |
| TypesGen.ArrayOf | lib/engine/types.ts:36-70 | A uniform sample gives its tag plus `[]`, objects and nulls give "object[]" over the merged properties, anything else "any[]". |
| TypesGen.Props | lib/engine/types.ts:48 | `s.properties` of a node, read as empty when it has none. |
| TypesGen.KeyConcat | lib/engine/types.ts:47-49 | The keys of the sampled nodes, in visiting order, with repeats. |
| TypesGen.AllKeys | lib/engine/types.ts:44-49 | The `allKeys` set: each collected key once, in order of first appearance. |
| TypesGen.ValuesFor | lib/engine/types.ts:53-55 | `valuesForKey`: the definitions of the key in the nodes that have it, in order. |
| TypesGen.SomeLacks | lib/engine/types.ts:63 | `schemas.some(s => s.properties && !s.properties[key])`: some sampled object lacks the key. |
| TypesGen.MergedDef | lib/engine/types.ts:61-64 | The first definition found, with `isOptional` set when some object lacks the key. |
| TypesGen.MergeFold | lib/engine/types.ts:51-65 | `mergedProps` after the `allKeys.forEach` loop has visited some keys: keys without a value are skipped, others assigned their merged definition. |
| TypesGen.MergedProps | lib/engine/types.ts:43-65 | `mergedProps` once every collected key is visited. |
| TypesGen.InferType | lib/engine/types.ts:21-26 | `inferType` computes `TypeDefOf`. |
| TypesGen.InferObject | lib/engine/types.ts:73-79 | The `forEach` assigning `props[key]` builds the object node. |
| TypesGen.InferArray | lib/engine/types.ts:28-71 | `inferArray`, with its key-collecting and merging loops, computes `ArrayDef`. |
| TypesGen.CollectKeys | lib/engine/types.ts:44-49 | Collecting keys into the `Set` gives each key of the sampled nodes once, in order of first appearance. |
| TypesGen.AddKeys | lib/engine/types.ts:48 | Adding one schema's keys to the `Set` keeps it equal to the first occurrences, in order, of every key seen so far. |
| TypesGen.DedupSnoc | lib/engine/types.ts:48 | `Set.add` appends a key only when it is not yet present. |
| TypesGen.AddKey | lib/engine/types.ts:48 | `allKeys.add(k)`: the set afterwards holds the first occurrences, in order, of every key seen so far including `k`. |
| TypesGen.MergeKeys | lib/engine/types.ts:51-65 | The `allKeys.forEach` loop assigns the merged definition of every key that has a value. |
| TypesGen.IsArrayTag | lib/engine/types.ts:91 | `node.type.endsWith("[]")`. |
| TypesGen.Line | lib/engine/types.ts:108-109 | One member line: two spaces, the key, `?` when optional, `: `, the type text, `;` and a newline. |
| TypesGen.Block | lib/engine/types.ts:104-112 | The accumulated `block`: the `export interface` header, the member lines, then `}`. |
| TypesGen.Traversal | lib/engine/types.ts:90-118 | `traverse`: an array of objects names its items by the singular of its name and adds `[]`, other arrays and leaves give their tag, an object with properties stores its block under the capitalized name. |
| TypesGen.TraversalProps | lib/engine/types.ts:106-110 | The `Object.entries(…).forEach` over the properties from one on, threading the map. |
| TypesGen.Values | lib/engine/types.ts:121 | `Array.from(interfaces.values())`, in insertion order. |
| TypesGen.GenerateTsSpec | lib/engine/types.ts:10-18 | `generateTs`: the map's blocks reversed and joined by blank lines after traversing the inferred root; `// Invalid JSON` when parsing fails. |
| TypesGen.InterfaceRenderer.constructor | lib/engine/types.ts:83 | The `interfaces` map starts empty. |
| TypesGen.InterfaceRenderer.Traverse | lib/engine/types.ts:90-118 | `traverse` returns `Traversal`'s text and leaves `interfaces` in `Traversal`'s map. |
| TypesGen.GenerateTs | lib/engine/types.ts:10-18 | `generateTs` returns the map's blocks reversed and joined by blank lines, or `// Invalid JSON`. |
| TypesProperties.TypeDefOfNotOptional | lib/engine/types.ts:21-26 | An inferred node is never itself optional. |
| TypesProperties.ObjectNode | lib/engine/types.ts:73-79 | An object's node is "object" with no items, and its properties have the object's keys, without repeats. With distinct keys they are the inferred members in order. |
| TypesProperties.InferTypeCases | lib/engine/types.ts:21-26 | `null` is "null", arrays go to `inferArray`, and strings, numbers and booleans are their `typeof`. |
| TypesProperties.ArraySample | lib/engine/types.ts:29-33 | An empty array is "any[]", and only the first 50 elements matter. |
| TypesProperties.UniformArray | lib/engine/types.ts:36-39 | When every sampled node is the same non-object leaf, the array is that tag plus `[]`. |
| TypesProperties.ScalarArrays | lib/engine/types.ts:36-39 | All-null, all-string, all-number and all-boolean samples give `null[]`, `string[]`, `number[]` and `boolean[]`. |
| TypesProperties.MixedArray | lib/engine/types.ts:29-70 | An array is "any[]" exactly when it is empty, or two sampled elements have nodes of different types and some sampled element is neither an object nor `null`. |
| TypesProperties.ElementTag | lib/engine/types.ts:21-26 | An element's node is "object" exactly for objects and "null" exactly for `null`; no node is "any". |
| TypesProperties.ArrayOfAny | lib/engine/types.ts:36-70 | The fallback "any[]" is reached exactly when neither test holds. |
| TypesProperties.NeitherTest | lib/engine/types.ts:36-42 | Neither test holds exactly when two sampled tags differ and some sampled tag is neither "object" nor "null". |
| TypesProperties.KeyConcatMembers | lib/engine/types.ts:47-49 | A key is collected iff some sampled node has it. |
| TypesProperties.ValuesForFirst | lib/engine/types.ts:53-57 | `valuesForKey` is empty iff no node has the key. Its first value is the definition in the first node that has it. |
| TypesProperties.MergedPropsShape | lib/engine/types.ts:51-65 | The merged properties have one entry per collected key, in collection order, each the merged definition. |
| TypesProperties.MergeFoldEntries | lib/engine/types.ts:51-65 | For distinct keys that all have a value, the loop appends one merged entry per key, in key order. |
| TypesProperties.PropsNotOptional | lib/engine/types.ts:73-79 | The definitions stored for an object's keys are never optional. |
| TypesProperties.MergedKeys | lib/engine/types.ts:47-61 | The merged keys are distinct, and they are exactly the keys of the sampled objects. |
| TypesProperties.MergedOptional | lib/engine/types.ts:63 | A merged key is optional exactly when some sampled object lacks it. Null elements never count. |
| TypesProperties.FirstDefinition | lib/engine/types.ts:53-64 | A merged definition is the one given by the first sampled object that has the key, with only `isOptional` replaced. |
| TypesProperties.ObjectArray | lib/engine/types.ts:42-67 | A sample of objects and nulls with at least one object is "object[]" over one merged "object" node. Its keys are those of the sampled objects, without repeats, each taking the first definition. A key is optional iff some sampled object lacks it; nulls never make a key optional. |
| TypesProperties.TraversalName | lib/engine/types.ts:90-118 | The text `traverse` returns never depends on the interfaces already emitted, because names are not deduplicated. |
| TypesProperties.ArrayName | lib/engine/types.ts:91-99 | An array of objects is named from the singular of its name, plus `[]`. Any other array keeps its tag. |
| TypesProperties.NonObjectKeepsMap | lib/engine/types.ts:99-117 | Leaves and arrays not of objects return their tag and emit nothing. |
| TypesProperties.ObjectInterface | lib/engine/types.ts:102-114 | An object node is named by its capitalized name. `interfaces` maps that name to its block, with one line per property in order. |
| TypesProperties.TraversalPropsLines | lib/engine/types.ts:104-111 | There is one member line per property, in order. Each has the key, the optional marker and the property's type name. |
| TypesProperties.LineShape | lib/engine/types.ts:108-109 | A member line starts with two spaces and the key, then has `?` exactly when the member is optional, and ends with `;`. |
| TypesProperties.TraversalKeeps | lib/engine/types.ts:113 | `interfaces` only grows. Existing names keep their places, a repeated name overwrites in place as `Map.set` does, and names stay distinct. |
| TypesProperties.RootFirst | lib/engine/types.ts:113-121 | An object root's block is stored under its capitalized name. It opens the output unless a nested interface took that name first, in which case it overwrites that one. |
| TypesProperties.GenerateTsEmpty | lib/engine/types.ts:99-121 | Input that does not parse gives `// Invalid JSON`. A scalar root, or an array not of objects, gives the empty string. |
| TsTransformer.IsComposite | lib/transformer.ts:7 | `typeof obj === "object" && obj !== null`: an object or an array. |
| TsTransformer.Block | lib/transformer.ts:20-34 | The `output` text: the `export interface` header, the member lines, then `}`. |
| TsTransformer.Parse | lib/transformer.ts:6-37 | `parse`: scalars and `null` are `any`; an array led by a composite element parses it under the singular name and is that name plus `[]`, any other array is the `typeof` of element 0 plus `[]`; an object pushes its block after its members' and is its name. |
| TsTransformer.Field | lib/transformer.ts:22-32 | One member: `null` prints `null`, a composite value is parsed under the capitalized key, anything else prints its `typeof`. |
| TsTransformer.MemberLines | lib/transformer.ts:21-33 | The `Object.keys(obj).forEach` from one member on: the lines, and the pushes in order. |
| TsTransformer.TsOutput | lib/transformer.ts:39-45 | `jsonToTs`: the pushed interfaces reversed and joined by blank lines; `""` when parsing fails. |
| TsTransformer.TsParser.constructor | lib/transformer.ts:2 | The `interfaces` list starts empty. |
| TsTransformer.TsParser.ParseValue | lib/transformer.ts:6-37 | `parse` returns `Parse`'s text and appends to `interfaces` exactly what `Parse` pushes. |
| TsTransformer.TsParser.ParseObject | lib/transformer.ts:20-36 | The object branch returns the name, after the members' pushes, then pushes the object's own block. |
| TsTransformer.TsParser.AddField | lib/transformer.ts:22-32 | One `forEach` step appends the member's line and pushes what its value pushes. |
| TsTransformer.JsonToTs | lib/transformer.ts:39-45 | `jsonToTs` returns the pushed interfaces reversed and joined by blank lines, or `""`. |
| TsTransformerProperties.ArrayCases | lib/transformer.ts:9-18 | Only element 0 is inspected. An empty array is `undefined[]`, a null first element gives `object[]`, and a composite one gives the singular name plus `[]`. |
| TsTransformerProperties.FieldCases | lib/transformer.ts:24-32 | A null member prints `null`. A nested object prints its capitalized key and emits that interface. A nested array prints its array text. Anything else prints its `typeof`. |
| TsTransformerProperties.ObjectInterface | lib/transformer.ts:20-36 | An object is named `name` verbatim. Its block is pushed last, with one line per visited member in `Object.keys` order. |
| TsTransformerProperties.MemberLinesShape | lib/transformer.ts:21-33 | The visited members produce one field line each, in `Object.keys` order. |
| TsTransformerProperties.ParseBlocks | lib/transformer.ts:20-35 | Everything pushed is an `export interface` declaration. |
| TsTransformerProperties.InterfaceCount | lib/transformer.ts:35 | Exactly one interface is pushed per visited object, with no deduplication. |
| TsTransformerProperties.MemberLinesCount | lib/transformer.ts:21-33 | The members push exactly one interface per object nested in them. |
| TsTransformerProperties.SameNameTwice | lib/transformer.ts:26-35 | Two sibling objects whose keys capitalize alike push two interfaces of the same name. |
| TsTransformerProperties.RootFirst | lib/transformer.ts:39-42 | An object root's interface, named `rootName` verbatim, opens the output. For an array root of objects, the element's singular-named interface does. |
| TsTransformerProperties.EmptyOutput | lib/transformer.ts:39-45 | The output is empty exactly when nothing was pushed. That is the case for input that does not parse, for a root that is neither an object nor an array, and for an array root whose element 0 is missing or neither an object nor an array (`[]`, `[1]`). |
| TsTransformerProperties.NestedArrayName | lib/transformer.ts:9-17 | An array led by an array of scalars is named after the singular of its hint, but no interface of that name is pushed. |
| ZodTransformer.Render | lib/zodTransformer.ts:2-26 | `parse`: `null` is `z.any()`, an empty array `z.array(z.any())`, another array `z.array(…)` of element 0, an object `z.object({` with its member lines, scalars their `z.` call. |
| ZodTransformer.PropLine | lib/zodTransformer.ts:16 | One member line: the bare key, `: `, the rendering and `,` with a newline. |
| ZodTransformer.PropsText | lib/zodTransformer.ts:13-17 | The `props +=` text from one member on. |
| ZodTransformer.ZodOutput | lib/zodTransformer.ts:28-34 | `jsonToZod`: the import and `export const <rootName> = ` around the rendering; `""` when parsing fails. |
| ZodTransformer.RenderValue | lib/zodTransformer.ts:2-26 | `parse`, including its `props +=` loop, computes `Render`. |
| ZodTransformer.JsonToZod | lib/zodTransformer.ts:28-34 | `jsonToZod` returns the import and export line around the rendering, or `""`. |
| ZodTransformerProperties.RenderIsCall | lib/zodTransformer.ts:2-26 | Every rendering starts with `z.` and ends with `)`. |
| ZodTransformerProperties.ArrayCases | lib/zodTransformer.ts:8-9 | An empty array renders `z.array(z.any())`. Otherwise only element 0 is rendered inside `z.array(…)`. |
| ZodTransformerProperties.PropsTextLines | lib/zodTransformer.ts:13-17 | The `props +=` text from member `i` on is the concatenation of those members' lines. |
| ZodTransformerProperties.ObjectShape | lib/zodTransformer.ts:12-18 | An object renders `z.object({\n`, then one line per member, then `})`. Each line is the bare key, `: `, the member's rendering and a trailing comma. |
| ZodTransformerProperties.AgreesWithEngineOnScalars | lib/zodTransformer.ts:3-23 | Strings, numbers and booleans render as the newer generator renders them. `null` renders `z.any()`, where the newer one gives `z.null()`. |
| ZodTransformerProperties.OutputFrame | lib/zodTransformer.ts:28-34 | The output is `export const <rootName> = `, then the rendering, then `;`. Input that does not parse yields `""`. |

## What the generators do not emit

Facts about the code under lib/ that a reader might expect otherwise:
- No generator collects literal values or renders an enum or a literal-union type.
- lib/engine/zod.ts never reads `required`, so no member gets `.optional()` (`ZodProperties.RenderIgnoresRequired`).
- lib/engine/zod.ts renders nested objects inline, never as separate named constants.
- lib/engine/typescript.ts writes arrays as `T[]` only, never as `readonly T[]` or `ReadonlyArray<T>`.

## Left out

- `JSON.parse`: the text parser is a foreign call. The model starts from the parsed `Json` value, and a parse failure is `None`.
- Object key ordering: `Object.keys` and `Object.entries` list integer-like keys first. Insertion order is used throughout.
- `localeCompare` (lib/engine/typescript.ts:14) depends on the locale. It is modelled as code-point lexicographic order, which is a strict total order.
- `toUpperCase` in `capitalize` is modelled as ASCII upper-casing of the first character. Other characters are left unchanged.
- Regex tests: the identifier test and the `"` removal are written as character predicates and filters.
- Numbers: only the integer/non-integer flag is kept, and no floating-point value is modelled.
- Lone surrogates are not modelled in `JSON.stringify`'s escaping, nor in `String.prototype.trim`'s character set.
- `isISODate` (lib/engine/sql.ts:3-4) is never called.
- Fallback branches that parsed JSON cannot reach are not modelled: the "anything else" results `any` at lib/engine/ast.ts:84, `Any` at lib/engine/pydantic.ts:37 and `z.any()` at lib/zodTransformer.ts:25.
- Prototype properties: keys such as `constructor` or `__proto__` on plain objects are not modelled. Every key is an own data property.
- Default parameters: `rootName = "Root"` and `rootName = "schema"` are explicit arguments.
- Errors thrown by the renderers are not modelled, for example a stack overflow on very deep input. The `catch` blocks are reached only through the parse failure.
- The user interface, the syntax highlighter, authentication and the page components are not modelled.

The following are deliberate scope limits of individual lemmas:
- PydanticProperties.InferObject: states the class's fields only for inputs without repeated keys. With repeated keys, `JSON.parse` keeps the key's first position and last value, which `Records.PutAll` also does.
- TypesProperties.ObjectNode: states the node's entries in order only for inputs with distinct keys. For other inputs it states their key set.
