# milton, modelled in Dafny

Milton turns any JavaScript value into text. It does this by folding an
ordered list of *replacers* over every node of the value. A `Milton` instance
holds that list. `add` registers one replacer and `use` registers a preset,
which is a fixed list of them.

`stringify(value)` works as follows:

- It throws `PC LOAD LETTER` when no replacer is registered.
- Otherwise it instantiates every replacer afresh, so all per-call state starts empty.
- It renders the root at the empty path.

Rendering a node is `replacers.reduce((acc, fn) => fn(acc, path, v), v)`. The
accumulator starts as the value itself, and each replacer either passes it on
or rewrites it.

Two replacers call back into the engine for the children of a container:

- the *array decender*;
- the *object decender*.

Each keeps a stack of the containers it is inside. It throws `Converting
circular structure to JSON` when it re-enters one of them. `reference`
instead remembers every object it has seen during the call. It prints
`[Reference #<JSON Pointer of the first path>]` for any later sighting.

The other replacers fall into three groups:

- **Type renderers:** `jsonValues`, `jsonCatch`, `jsValues`, `symbols`,
  `functions`, the date, error and regular-expression renderers, `setMap`,
  `prettySetMap`, `classes`, `promises`, `skipPrivate` and `objectToString`.
- **Limits:** `maxDepth`, `maxArrayLength` and `trimStrings`.
- **Layout:** `indent`, `breakLength` and `blockXSS`.

The presets `json`, `js` and `pretty` fix their order and options.

The model is functional, module by module:

- `Values`: the JavaScript values.
  - Primitives are carried by value.
  - Objects live in an arena `Heap = map<Id, Node>`, so sharing and cycles are explicit.
  - What the host computes by reflection is carried as opaque text: `constructor.name`, `toISOString()`, `String(date)` and an object's own `toString()`. An object without a constructor (`Object.create(null)`) has no `constructor.name`.
- `Stages`: every replacer that neither recurses nor keeps state, as a function of `(acc, path, value)`. A `Plugin` datatype names each replacer with its options, and a missing option takes the source's default.
- `Escaping` and `Layout`: the string functions behind the replacers (`escape`, `quotes`, `indentOption`, `indent`, the `\n\s*` collapse, `slice`, the line limiter and the XSS escapes).
- `Pointer`: JSON Pointer compilation per section 3 of RFC 6901.
- `Engine`: the mutual recursion of `_stringify`, the fold, the two decenders, `reference` and the renderers that call back into the engine.
  - The per-call state is threaded explicitly. It holds, per replacer position, the decender stack and the `reference` map.
  - Recursion depth is bounded by `fuel`, which stands for the host's call stack.
- `Rendering`: the text each decender and container renderer prints, in terms of its children's renderings, each made by the whole fold at the child's own path, in order.
- `Depth`: how much stack a render needs. On graphs of arrays and plain objects, `pretty` needs one nested render per object and any replacers need one per level of an acyclic graph, so neither runs out of stack nor meets a container it is inside.
- `Pipeline`: the fold restricted to stateless replacers, as a plain left fold `Reduce`, with the lemmas that relate it to the engine.
- `Milton`: the class, `add`, `use` and `stringify`.
- `Presets`: the three presets and what they do end to end.

The invariant behind the engine, which appears as `Engine.Inv` and `Engine.Cleared`, is this:

- When `reference` runs first, every object on a decender stack has already been recorded by `reference`.
- The accumulator that reaches a decender is therefore never on its stack.
- So with `reference` first, the decenders never throw the circular-structure error. They can still throw the conversion `TypeError` of a symbol rendering, from `key + ': ' + v` in the object decender or from `join` in the array decender.

## Model

| member | source | states |
|---|---|---|
| Escaping.Escape | src/lib/plugins.ts:25-48 | the result never holds a raw line feed, carriage return, tab, U+2028 or U+2029; it equals the input exactly when the input has none of the eight special characters (both quotes, backslash and those five); it is never shorter |
| Escaping.UnescapeEscape | src/lib/plugins.ts:25-48 | reading the escapes back recovers the input: `escape` loses nothing |
| Escaping.Quotes | src/lib/plugins.ts:50-56 | `true` and `'single'` give `'`, `'double'` gives `"`, `false` gives the empty quote, and any other text is the quote itself; among the flags exactly `false` gives the empty quote |
| Escaping.QuotesIdempotent | src/lib/plugins.ts:50-56 | normalising an already normalised quote changes nothing |
| Escaping.IndentText | src/lib/plugins.ts:58-63 | it fails exactly for a negative width (the `RangeError` of `repeat`); a width gives that many spaces; `true` gives two spaces and `false` none; a text is kept as it is |
| Escaping.IndentTextIdempotent | src/lib/plugins.ts:58-63 | normalising a normalised indent changes nothing |
| Stages.JsonValuesStage | src/lib/plugins.ts:74-87 | `null`, numbers and booleans become `String(x)`; a string equal to the node's own value is quoted and escaped; a string produced by an earlier replacer and everything else pass through |
| Stages.JsonStringLiteral | src/lib/plugins.ts:78-86 | a quoted string is a literal that reads back to the string and has no raw line terminator inside |
| Stages.JsonCatchStage | src/lib/plugins.ts:92-106 | a date becomes its quoted ISO text; any other object, including `null`, becomes `{}`; symbols and functions become `undefined`; other primitives pass |
| Stages.JsonCatchSafe | src/lib/plugins.ts:92-106 | `jsonCatch` leaves no object, map-entry pair, symbol, function or `null`, and a second pass changes nothing |
| Engine.DescendArray | src/lib/plugins.ts:113-147 | an array already on this decender's stack throws the circular-structure error; a success is a string, after which the stacks are as they were before (push and pop balance) and `reference` records were only added; with `reference` first and the invariant holding it never throws that error |
| Rendering.DescendArrayText | src/lib/plugins.ts:121-143 | a successful array descent renders every element in order at `path + [index]` with the array pushed, and prints the opening bracket, a line break, the truthy renderings joined by `,\n` (or `\n`), a line break and the closing bracket, then pops the array |
| Rendering.RenderItemsTrace | src/lib/plugins.ts:129-135 | the elements are rendered one after another at their own keys, each starting in the state the previous one left |
| Engine.RenderItems | src/lib/plugins.ts:129-135 | one rendering per remaining element; the stacks are unchanged and the records only grow; with `reference` first no circular-structure error |
| Engine.Truthies | src/lib/plugins.ts:133 | every kept rendering is truthy and came from the input, and every truthy rendering is kept |
| Engine.TruthiesConcat | src/lib/plugins.ts:129-135 | filtering a concatenation is concatenating the filtered parts, so the kept renderings stay in element order |
| Engine.DescendObject | src/lib/plugins.ts:157-198 | a plain object already on this decender's stack throws the circular-structure error; a success is a string and the stacks afterwards are as before; with `reference` first and the invariant holding it never throws that error |
| Rendering.DescendObjectText | src/lib/plugins.ts:166-194 | a successful object descent renders every member in order at `path + [key]` with the object pushed, and prints the brackets around the lines of the truthy renderings joined by `,\n` (or ` \n`), then pops the object |
| Rendering.ObjectMembersTrace | src/lib/plugins.ts:174-186 | the members are rendered one after another at their keys; the lines are those of the truthy renderings, in member order, none of them a symbol |
| Rendering.KeptLinesCons | src/lib/plugins.ts:184 | one member's line followed by the rest's lines is the lines of all of them |
| Engine.ObjectMembers | src/lib/plugins.ts:174-186 | at most one line per remaining member; the stacks are unchanged and the records only grow |
| Engine.MemberLine | src/lib/plugins.ts:184 | a falsy rendering contributes no line; a truthy rendering that converts to text contributes the key, `:` or `: `, and that text; a symbol rendering throws the conversion `TypeError`, and nothing else throws |
| Stages.QuotedKey | src/lib/plugins.ts:178-183 | a key is quoted and escaped exactly when `quoteKeys` is set or escaping changes it; otherwise it is printed bare |
| Stages.QuotedKeyDecodes | src/lib/plugins.ts:178-183 | every printed key reads back to the key |
| Engine.PrivateMemberOmitted | src/lib/plugins.ts:400-409 | the `''` that `skipPrivate` gives a member whose name starts with the prefix, if no later replacer rewrites it, contributes no line to its object |
| Layout.Indent | src/lib/plugins.ts:204-218 | the number of lines is kept; the first and last lines are unchanged; every interior line gets the unit prefixed; a single line is unchanged |
| Layout.IndentKeepsLines | src/lib/plugins.ts:209-215 | re-splitting the joined indented lines gives those lines back |
| Stages.IndentStage | src/lib/plugins.ts:204-218 | a bad indent option throws; otherwise a string rendering is indented and anything else passes |
| Stages.BreakLengthStage | src/lib/plugins.ts:225-234 | a string rendering is replaced by its `breakLength` text and anything else passes |
| Stages.BlockXssStage | src/lib/plugins.ts:517-529 | a string rendering is replaced by its XSS-safe text and anything else passes |
| Layout.BreakText | src/lib/plugins.ts:225-234 | the result is the input or its collapsed one-line form; it is the one-line form exactly when that form, stripped of colour codes, is shorter than the limit in UTF-16 code units; text without a line break is returned unchanged |
| Layout.Collapse | src/lib/plugins.ts:229 | with a replacement that has no line break, the result has no line break |
| Layout.CollapseNoBreak | src/lib/plugins.ts:229 | text without line breaks is unchanged |
| Layout.CollapsePlain | src/lib/plugins.ts:229 | a prefix without line breaks is kept as it is in front of the collapsed rest |
| Layout.CollapseBreak | src/lib/plugins.ts:229 | a line break and the whole run of white space after it become one replacement |
| Layout.CollapseSplit | src/lib/plugins.ts:229 | text, a line break with its indentation, and more text collapse to the text, one replacement and the collapsed rest |
| Layout.CollapseIndentedBox | src/lib/plugins.ts:229 | the indented empty box collapses to its two brackets around one replacement |
| Layout.Utf16Length | src/lib/plugins.ts:230 | `length` counts one unit per character and two outside the Basic Multilingual Plane, so between the character count and twice it |
| Layout.Utf16LengthConcat | src/lib/plugins.ts:230 | the code-unit length of a concatenation is the sum of the lengths |
| Layout.Utf16LengthBmp | src/lib/plugins.ts:544 | on text of one-unit characters the code-unit length is the character count |
| Layout.BreakTextIdempotent | src/lib/plugins.ts:225-234 | a second `breakLength` pass changes nothing |
| Layout.StripAnsi | src/lib/plugins.ts:230 | stripping never lengthens and leaves text without escape characters unchanged |
| Layout.BreakToShort | src/lib/plugins.ts:229-232 | a one-line form without colour codes that is shorter than the limit is what `breakLength` returns |
| Layout.BreakBox | src/lib/plugins.ts:225-234 | the indented empty box collapses onto one line, `[]` when compact and `[ ]` otherwise |
| Layout.IndentBox | src/lib/plugins.ts:204-218 | indenting the empty box `o\n\nc` indents only its empty middle line |
| Stages.JsValuesStage | src/lib/plugins.ts:239-250 | `undefined` gives `undefined`; NaN and the infinities give their names; negative zero gives `-0`; a bigint gives its digits followed by `n`; finite numbers and all else pass |
| Stages.JsValuesIdempotent | src/lib/plugins.ts:239-250 | a second `jsValues` pass changes nothing, and whatever it changes becomes a string |
| Stages.SymbolsStage | src/lib/plugins.ts:256-266 | a symbol becomes `Symbol(` + quote + escaped description + quote + `)`, where a missing description prints as `undefined` |
| Stages.SymbolsDecodes | src/lib/plugins.ts:261-264 | the text between the quotes of `Symbol(...)` reads back to the description |
| Stages.FunctionsStage | src/lib/plugins.ts:269-275 | a named function becomes `[ƒ name]` and an anonymous one becomes `[ƒ]` |
| Stages.FunctionsName | src/lib/plugins.ts:270-273 | a named function's text is `[ƒ `, the name itself, and `]` |
| Engine.JsConstructor | src/lib/plugins.ts:277-310 | the constructor-call renderings of dates, errors and regular expressions keep the stacks and only add records; an object result is the accumulator itself; with `reference` first they never throw the circular-structure error |
| Rendering.JsConstructorText | src/lib/plugins.ts:277-310 | a date prints `new Date(` + the rendering of its ISO text at the empty path + `)`, an error `new Error(` + its message's rendering + `)`, a regular expression `new RegExp(` + source + `, ` + flags, each rendered, + `)`; anything else passes |
| Stages.PrettyDatesStage | src/lib/plugins.ts:284-289 | a date becomes `String(date)` |
| Stages.PrettyErrorsStage | src/lib/plugins.ts:298-303 | an error becomes `Error: ` followed by its message |
| Stages.PrettyRegexStage | src/lib/plugins.ts:312-317 | a regular expression becomes `/source/flags` |
| Stages.RegExpTextSplits | src/lib/plugins.ts:312-317 | `/source/flags` splits back at its first and last slash into the source and the flags |
| Engine.JsCollection | src/lib/plugins.ts:319-332 | rendering a map or set keeps the stacks and only adds records; an object result is the accumulator itself; with `reference` first no circular-structure error |
| Rendering.JsCollectionText | src/lib/plugins.ts:319-332 | a map prints `new Map(\n[` + its `[key, value]` entries rendered in order at their indexes and joined by `,` + `]\n)`, and a set likewise with its items; anything else passes |
| Engine.PrettyCollection | src/lib/plugins.ts:339-372 | rendering a map, set or weak collection keeps the stacks and only adds records; an object result is the accumulator itself; with `reference` first no circular-structure error |
| Rendering.PrettyCollectionText | src/lib/plugins.ts:339-372 | a map prints `Map(size) { ` + its `key => value` texts, values rendered in order at their indexes, joined by `, ` + ` }`; a set prints `Set(size) { ... }` likewise; weak collections print `WeakMap {}` and `WeakSet {}`; anything else passes |
| Engine.MapEntries | src/lib/plugins.ts:348-358 | exactly one `key => value` text per remaining map entry; the stacks are unchanged |
| Rendering.MapEntriesTrace | src/lib/plugins.ts:348-358 | each entry's value is rendered in order at its index, and its text is the key, quoted when a quote is set or escaping changes it, ` => ` and the value's text |
| Stages.ClassesStage | src/lib/plugins.ts:375-387 | an instance of a named class is prefixed by the class name, and a symbol rendering of one throws the conversion `TypeError`; an `[object Object]` without a constructor throws the `TypeError` of reading `constructor.name`; a class becomes `[class: name]`; a plain `Object` and all else pass |
| Stages.ClassesKeepsRendering | src/lib/plugins.ts:377-381 | an instance of a named class keeps the rendering so far, after the class name and a space |
| Stages.PromisesStage | src/lib/plugins.ts:389-394 | a promise is shown as `Promise { ? }` |
| Stages.PromisesIgnoresRendering | src/lib/plugins.ts:389-394 | for a promise the result does not depend on what earlier replacers rendered |
| Stages.SkipPrivateStage | src/lib/plugins.ts:400-409 | a member whose own name starts with the prefix renders as `''`, which is falsy; any other node passes |
| Stages.SkipPrivateIdempotent | src/lib/plugins.ts:400-409 | a second `skipPrivate` pass changes nothing |
| Engine.ReferenceStage | src/lib/plugins.ts:411-423 | a repeated object becomes the marker with the pointer of its first path; a new object is recorded at its path and passes; nothing is ever removed |
| Pointer.ParseCompile | src/lib/plugins.ts:416 | the pointer of a path parses back to the path's reference tokens (`~0` and `~1` undone) |
| Pointer.CompileInjective | src/lib/plugins.ts:416 | paths with the same pointer have the same tokens |
| Pointer.MarkerOfName | src/lib/milton.spec.ts:305-312 | a one-step path to member `a` gives `[Reference #/a]` |
| Stages.MaxDepthStage | src/lib/plugins.ts:475-489 | deeper than `max`, a plain object is `{...}` and an array is `Array(length)`, whatever was rendered; otherwise it passes |
| Stages.MaxDepthIgnoresRendering | src/lib/plugins.ts:479-485 | past the depth limit the summary of an array or plain object does not depend on what earlier replacers rendered |
| Stages.MaxDepthMonotone | src/lib/plugins.ts:475-489 | a larger `max` passes whatever a smaller one passes, and otherwise summarises exactly as the smaller one does |
| Layout.LimitLines | src/lib/plugins.ts:500-513 | within `max` lines the text is unchanged; above that, when at least two lines follow the first `show`, its lines are the first `show` lines, then `...` indented like the penultimate line, then the last line; when exactly one line follows, `...` is still inserted before it although nothing was dropped; when `show` covers every line, the text is followed by `\n...\nundefined`, from `pop()` on the emptied array |
| Layout.LimitLinesMonotone | src/lib/plugins.ts:497-514 | a larger `max` either keeps the text whole or limits it exactly as a smaller one does |
| Layout.LinesOfElided | src/lib/plugins.ts:505-509 | the joined shortened text splits back into the kept lines, the indented `...` and the last line |
| Stages.MaxArrayLengthStage | src/lib/plugins.ts:497-514 | arrays' renderings are line-limited, a non-string rendering of an array throws, and anything else passes |
| Stages.MaxArrayLengthMonotone | src/lib/plugins.ts:497-514 | a larger `max` either passes the rendering or limits it exactly as a smaller one does |
| Layout.BlockXssEscapes | src/lib/plugins.ts:517-529 | the five successive replacements equal a one-pass escape, and the result has no U+2028, U+2029, `<`, `>` or `/` |
| Layout.Trim | src/lib/plugins.ts:537-552 | text of at most `max` UTF-16 code units is kept as it is; longer text of one-unit characters, when both ends fit inside it, becomes its first `head` characters, the snip and its last `tail` characters, of exactly that total length |
| Layout.TrimUnits | src/lib/plugins.ts:546-548 | whatever the characters, a trimmed text is a head cut from the start of the input of at most `head` code units, the snip, and a tail cut from its end of at most `tail` code units |
| Layout.TrimMonotone | src/lib/plugins.ts:537-552 | a larger `max` either keeps the text whole or trims it exactly as a smaller one does |
| Layout.Clamp | src/lib/plugins.ts:547 | a slice position inside the text is kept, a negative one counts from the end, and the result never passes the end |
| Layout.SliceHead | src/lib/plugins.ts:547 | `slice(0, n)` is a prefix of the text of at most `n` code units |
| Layout.SliceTail | src/lib/plugins.ts:547 | `slice(-n)` is a suffix of the text of at most `n` code units, and `slice(-0)` is the whole text |
| Layout.TakeUnitsCount | src/lib/plugins.ts:547 | the head taken fits in `n` code units and stops only where the next character would not fit |
| Layout.DropUnitsCount | src/lib/plugins.ts:547 | dropping `n` code units drops `n` of them, or `n + 1` when the cut falls inside a surrogate pair |
| Layout.BmpSlices | src/lib/plugins.ts:547 | on text of one-unit characters the code-unit slices are the character slices |
| Stages.TrimStringsStage | src/lib/plugins.ts:540-551 | only a string rendering of a string value is trimmed |
| Stages.ObjectToStringStage | src/lib/plugins.ts:554-561 | a plain object whose `toString()` is not `[object Object]` is shown by it |
| Stages.ObjectToStringIgnoresRendering | src/lib/plugins.ts:554-561 | for a plain object with its own `toString()` the result does not depend on what earlier replacers rendered |
| Stages.ApplySimple | src/lib/plugins.ts:74-561 | no stateless replacer turns its accumulator into a different object; they fail only with `TypeError` or `RangeError` |
| Engine.Render | src/lib/milton.ts:14-16 | no fuel means the stack is exhausted; the stacks afterwards are as before; `reference` records only grow; an object result is the node itself; with `reference` first and the invariant holding, no circular-structure error |
| Engine.Fold | src/lib/milton.ts:15 | the same guarantees for the fold from any position |
| Engine.Apply | src/lib/milton.ts:15 | one replacer keeps the invariant and, with `reference` first, leaves a cleared accumulator |
| Engine.ReferenceClears | src/lib/plugins.ts:411-423 | after `reference` at position 0, an object accumulator is recorded and on no stack |
| Engine.PushInv | src/lib/plugins.ts:124-127 | pushing a cleared object keeps every stacked object recorded |
| Engine.PushPop | src/lib/plugins.ts:124-136 | pushing a container, rendering its children and popping it leaves the stacks as they were |
| Pipeline.FoldIsReduce | src/lib/milton.ts:15 | over stateless replacers, or for a primitive accumulator, the engine's fold is the plain left fold and leaves the state alone |
| Pipeline.RenderIsReduce | src/lib/milton.ts:14-16 | a primitive, or a node under stateless replacers only, renders as the left fold starting from the node itself |
| Pipeline.ReduceAppend | src/lib/milton.ts:15 | folding over `a + b` is folding over `a`, then over `b` from its result, and a throw in `a` ends it |
| Pipeline.ReduceFixed | src/lib/milton.ts:15 | replacers that each leave a value alone leave it alone together |
| Pipeline.ReferenceFirst | src/lib/presets.ts:63-67 | with `reference` first, a repeated object's marker is what the other replacers see, and a new object is recorded at the path where it was first met |
| Pipeline.ReferenceApplies | src/lib/plugins.ts:411-423 | `reference` at position 0 is the marker-or-record step on any value |
| Milton.Add | src/lib/milton.ts:23-26 | exactly one replacer is appended and the earlier ones are kept in order |
| Milton.Use | src/lib/milton.ts:28-31 | the preset's replacers are appended in the preset's order after the earlier ones |
| Milton.UseIsAdds | src/lib/milton.ts:28-31 | using a preset is adding its replacers one by one |
| Milton.Stringify | src/lib/milton.ts:9-21 | it fails with `PC LOAD LETTER` exactly when no replacer is registered; an object result is the root itself; with `reference` first no circular-structure error |
| Milton.EmptyMessage | src/lib/milton.spec.ts:97-102 | the error without replacers carries the message `PC LOAD LETTER` |
| Milton.ReferenceFirstNeverCircular | src/lib/milton.ts:18 | any list that starts with `reference` never throws the circular-structure error, for every value and heap |
| Presets.PrettyNeverCircular | src/lib/presets.ts:63-90 | `pretty` never throws the circular-structure error, whatever the object graph |
| Depth.PrettyFinishes | src/lib/milton.spec.ts:305-312 | `pretty` on any graph of arrays and plain objects, cyclic or not, with more nested renders than the graph has objects, neither runs out of stack nor throws the circular-structure error |
| Depth.RenderReferenced | src/lib/presets.ts:64-67 | with `reference` first, a render with more fuel than there are objects `reference` has not yet met never runs out of stack |
| Depth.AcyclicFinishes | src/lib/plugins.ts:124-136 | any replacers on an acyclic graph of arrays and plain objects, with more nested renders than the value's height, neither run out of stack nor throw the circular-structure error, even where one object is reached twice |
| Depth.RenderRanked | src/lib/plugins.ts:121-146 | below every container being descended into, a value of lower height renders without running out of stack or meeting a container it is inside |
| Depth.JsonSharedNotCircular | src/lib/plugins.ts:166-196 | `json` on `{ a: x, b: x }` does not throw the circular-structure error |
| Presets.JsonString | src/lib/milton.spec.ts:108-111 | under `json` a string becomes `"` + escaped string + `"` |
| Presets.JsonPrimitive | src/lib/milton.spec.ts:112-115 | under `json`, `null`, booleans and numbers become `String(x)` |
| Presets.JsonEmptyArray | src/lib/milton.spec.ts:118-119 | under `json` an empty array is `[]` |
| Presets.JsonEmptyObject | src/lib/milton.spec.ts:132-133 | under `json` an object without members is `{}` |
| Presets.JsonDrops | src/lib/milton.spec.ts:150-155 | under `json`, `undefined`, symbols and functions give the result `undefined` |
| Presets.JsonOpaqueObject | src/lib/milton.spec.ts:145-166 | under `json` a date is its quoted ISO text, and a map, set, error, regular expression, promise or weak collection is `{}` |
| Presets.JsonSelfMemberCircular | src/lib/milton.spec.ts:168-174 | under `json` an object whose first member is the object itself throws the circular-structure error |
| Presets.JsonRevisit | src/lib/plugins.ts:166-171 | under `json`, a plain object already on the object decender's stack throws the circular-structure error |
| Presets.JsPrimitive | src/lib/milton.spec.ts:195-204 | under `js`, `undefined`, NaN, the infinities, `-0` and bigints become their literals |
| Presets.NegativeZero | src/lib/plugins.ts:244 | negative zero is `-0` under `js` and `0` under `json` |
| Presets.PrettyPrimitive | src/lib/presets.ts:63-90 | `pretty` writes those primitives exactly as `js` does |
| Presets.JsonLayout | src/lib/presets.ts:39-40 | after the decenders, `json` indents a rendered container by two spaces and then applies the compact 80-column collapse |
| Text.SplitJoin | src/lib/plugins.ts:210-215 | joining lines and splitting again gives the lines back |
| Text.JoinSplit | src/lib/plugins.ts:210-215 | splitting and joining again gives the text back |
| Text.DecimalRoundTrip | src/lib/plugins.ts:359 | the decimal text of a count reads back as that count |
| Values.JoinValuesOfStrings | src/lib/plugins.ts:140 | joining string renderings is the plain join of their texts |
| Values.ToText | src/lib/plugins.ts:184 | the implicit string conversion keeps strings and throws the conversion `TypeError` on a symbol |
| Values.ShapeTags | src/lib/plugins.ts:122-123 | `toString.call` gives `[object Array]` exactly for arrays and map-entry pairs, and `[object Object]` exactly for plain objects |

## Left out

- `ansiColors` (src/lib/plugins.ts:442-469) is left out. It calls into Chalk, a foreign library, and no preset uses it.
- `stripAnsi` is modelled as the removal of SGR sequences (`ESC [ digits/semicolons m`), not the full pattern of the strip-ansi library.
- Floating point is not modelled. A finite number carries the text `String(x)` gives it, and `isFinite` and the `1 / s < 0` test are replaced by the number's tag.
- Reflection is carried as opaque text fixed when the heap is built. This covers `constructor.name`, `toISOString()`, `String(date)`, a regular expression's source and flags, `Function.prototype.toString` (the `class ` prefix test of `Values.IsClass` reads this text) and an object's own `toString()`.
- `Values`: an array has exactly its index members. Sparse arrays and extra enumerable properties on arrays are not modelled.
- `Values`: an id missing from the heap reads as an empty plain object, so the functions stay total.
- `Values`: symbol identity is not modelled. Symbols compare by description, which the replacers never do.
- `Engine.Render`: recursion depth is bounded by `fuel`, which stands for the host's call stack, and exhausting it gives a `StackExhausted` error. Every deep enough rendering runs out, acyclic or not, as a real stack does. `Depth.PrettyFinishes` and `Depth.AcyclicFinishes` bound the fuel that graphs of arrays and plain objects need. Graphs holding maps, sets, dates, errors or regular expressions have no such bound in the model. `setMap` and `prettySetMap` recurse without a cycle check of their own, so under a replacer list without `reference` first, such as `js`, a self-containing map or set exhausts any fuel, like the host's `RangeError`. Under `pretty`, whose `reference` runs first, the inner sighting becomes a marker instead (`m = new Map([['k', m]])` prints `Map(1) { k => [Reference #] }`); the model computes this, but no lemma bounds the fuel it needs.
- `Depth.PrettyFinishes` and `Depth.AcyclicFinishes` promise no stack exhaustion and no circular-structure error, not success: the other errors a replacer can throw, such as the conversion `TypeError` of a symbol rendering, are not excluded.
- `Layout.Trim` and `Layout.BreakText` measure and cut in UTF-16 code units, as JavaScript does. A Dafny `char` cannot hold a lone surrogate, so a `slice` that would cut a surrogate pair drops the whole character here, where JavaScript keeps a lone half.
- `Engine.PrivateMemberOmitted`: later replacers of `pretty` read the node itself and can replace the `''` of a private member. `jsonValues` quotes an empty-string member (`{ _x: '' }` prints `_x: ''`), and `promises`, `maxDepth` and `objectToString` print a private promise, a deep container or an object with its own `toString()`. The model keeps this behaviour; the lemma covers only members whose `''` reaches the decender.
- `Presets.JsonSelfMemberCircular` states the circular-structure error only for an object whose first member is itself. With earlier members the same error follows unless one of them fails first, which the lemma does not state.
- `Values.ToText`: an object without a constructor (`Object.create(null)`) also has no `toString`, so `String(v)` on it throws in JavaScript. The model converts it to its heap text instead, and `objectToString` replaces it by that text unless the text is `[object Object]`, where the source finds no `v.toString` and keeps the rendering; only `Stages.ClassesStage` fails on it.
- `Stages.JsonCatchStage` and `Engine.JsConstructor`: dates are assumed valid. `toISOString()` throws a `RangeError` on an invalid date such as `new Date(NaN)` (src/lib/plugins.ts:98 and 279), but a model date always carries its ISO text, so `json` and `js` succeed on it.
- `Values.ToText`: an object's text is the opaque text fixed in the heap, even for arrays, so `String([Symbol()])`, which throws in JavaScript, does not throw in the model.
- `Engine.PrettyCollection`: `s.size` is the number of entries or items given, so the heap is assumed to hold a map without duplicate keys and a set without duplicate items. A heap set holding `'x'` twice prints `Set(2) { 'x', 'x' }`, which no JavaScript `Set` produces.
- `Stages.ApplySimple`: a falsy `show` for `trimStrings` makes `options.show` a number, so `show[0]` and `show[1]` read as `undefined`. This is not modelled; the option is always a pair.
- `catchToString`, which src/lib/presets.ts:30 imports, is not exported by src/lib/plugins.ts. It is modelled as `objectToString`, its evident meaning.
- An exception thrown inside a decender leaves its stack un-popped in the source. The model instead discards the state with the error, which is indistinguishable because `stringify` aborts and the next call starts fresh.
- `Milton.Add`: `options || null` is reflected by `None` options taking their defaults. Falsy option values such as `0` or `''` are not separately treated as missing.
- `Milton.Add` and `Milton.Use` return the updated instance as a new value. Returning the same instance (`return this`) is not modelled, as there is no mutable state.
- The end-to-end behaviour of `pretty` on nested containers (`{ Hello: { pi: 3.14 } }`, the `maxDepth` and `skipPrivate` examples of src/lib/milton.spec.ts) is not proved as concrete strings. The replacers involved are modelled and their contracts stated, but the whole-string equalities are out of scope.
- The multi-line `js` and `json` array examples (`['Hello', 3.14]` and longer) are not proved as concrete strings, for the same reason.
- `pretty` registers `reference` before both decenders (src/lib/presets.ts:64-67), so back-reference annotation and the decenders' throw-on-cycle meet in one preset. `Presets.PrettyNeverCircular` and `Depth.PrettyFinishes` show the decenders then never throw the circular-structure error; other errors, such as the symbol conversion `TypeError`, remain possible.
