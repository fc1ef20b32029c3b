# A verified model of the OBJ/MTL loading pipeline and the scene graph of cg_trab1

This project models, in Dafny, the two text readers and the geometry post-processing at the
heart of the WebGL viewer, and the parent/child bookkeeping of its scene graph:

- `parseOBJ` (Wavefront OBJ). The reader keeps four stores of tuples (positions, texture
  coordinates, normals and vertex colors), each seeded with a sentinel in slot 0 so that
  one-based indices can be used directly. It also keeps a list of geometries, with one of
  them open and receiving vertices, and the current object, group and material names.
  Each line is trimmed, skipped when empty or a comment, and taken apart by the keyword
  expression `/(\w*)(?: )*(.*)/` and by `split(/\s+/)`. The line is then dispatched to the
  handler of its keyword. A face is triangulated as a fan around its first reference, and
  every slash field of a reference is resolved (negative indices count back from the end
  of the store) and copied into the open geometry.
- `parseMTL` and `parseMapArgs` (material libraries). `newmtl` starts an empty record under
  its name, and the property directives write one field of the current record.
- `generateTangents`, with `makeIndexIterator`, `makeUnindexedIterator` and `subtractVector2`.
  Each triangle gets one tangent, the direction in which the first texture coordinate
  grows. The tangent is `[1, 0, 0]` when the texture-coordinate determinant is zero or
  cannot be computed, and it is written once for each of the triangle's three vertices.
- The step of `main` that prepares each parsed geometry for drawing. Missing attributes get
  constant defaults and tangents are generated when texture coordinates and normals are
  present. The material is the default material overlaid with the MTL record, after the
  loop that forces shininess 25 and a white specular color.
- `Node` and `Node.prototype.setParent` of `script.js`. A node detaches from its old parent
  with `indexOf` and `splice`, then appends itself to the new parent's children.

The model takes the source's own form:

- **Specification functions on values.** `Obj`, `Mtl`, `Tangents`, `Assemble`, and the string
  built-ins in `JsText`: `split` with one character, `split(/\s+/)`, `join`, `trim`,
  `startsWith`, the keyword expression and `parseInt`. The lemmas about them state what a
  parse promises.
- **Classes whose methods update fields in place**, each proved to perform the
  specification function's step:
  - `ObjParsing.ObjParser`: the variables `parseOBJ`'s closures share.
  - `MtlParsing.MtlParser`: the variables of `parseMTL`.
  - `Tangents.IndexIterator`: the closure over `ndx`.
  - `Scene.Node`: `children` and `parent`.
- **Line loops and face loops** are `while` loops with invariants. They tie the state after
  `n` lines (or `n` triangles) to a left fold over the first `n`.

A JavaScript exception is an `Err`/`Fail` value carrying the reason. The exceptions modelled:

- A face reference whose index does not parse, or names no stored tuple: spreading
  `undefined` throws.
- A position index with no color tuple while vertex colors are in use.
- A fifth slash field.
- An MTL property directive before any `newmtl`: a property set on `undefined`.
- A geometry without positions whose positions are read while its vertex data is prepared.
- A keyword that finds a throwing member of `Object.prototype`, in the dispatch as written
  (see Findings).

Three behaviours of the code are easy to misread, and the model keeps each one as the code
has it:

- An out-of-range face index does not fall back to the sentinel in slot 0. The code throws
  a `TypeError` (`push(...undefined)`), and the model returns `IndexNotFound`.
- The parsers are not total. The code throws in the cases just listed.
- Colors are marked three-component by comparing the lengths of the color and position
  arrays (numbers, not vertices). The model compares the same lengths.

## Model

| member | source | states |
|---|---|---|
| JsText.Split | scriptWithObjects.js:137 | `text.split('\n')` always yields at least one piece |
| JsText.SplitFacts | scriptWithObjects.js:137 | no piece holds the separator, and joining the pieces with it gives the text back |
| JsText.SplitOfJoin | scriptWithObjects.js:137 | splitting on a separator takes apart what joining with it put together, for pieces without the separator |
| JsText.SplitOfNoSeparator | scriptWithObjects.js:137 | a text without the separator is one piece |
| JsText.TrimStart | scriptWithObjects.js:139 | the leading trim never lengthens the line |
| JsText.TrimStartFacts | scriptWithObjects.js:139 | the leading trim removes only white space, keeps a suffix of the line, and leaves no white space in front |
| JsText.TrimEnd | scriptWithObjects.js:139 | the trailing trim never lengthens the line |
| JsText.TrimEndFacts | scriptWithObjects.js:139 | the trailing trim removes only white space, keeps a prefix of the line, and leaves no white space at the end |
| JsText.Trim | scriptWithObjects.js:139 | `trim()` never lengthens the line, and a non-empty result neither starts nor ends with white space |
| JsText.TrimIdempotent | scriptWithObjects.js:139 | trimming a trimmed line changes nothing |
| JsText.DropSpaceRun | scriptWithObjects.js:148 | what follows a run of white space is empty or starts with a non-space |
| JsText.SplitOnSpace | scriptWithObjects.js:148 | `split(/\s+/)` always yields at least one piece |
| JsText.SplitOnSpaceFacts | scriptWithObjects.js:148 | the pieces hold no white space; only the first and last can be empty; the first is not when the line starts with a non-space; a text without white space is one piece |
| JsText.SplitOnSpaceOfWordThenSpace | scriptWithObjects.js:148 | a word followed by a space splits into that word and the pieces of the rest |
| JsText.SplitOnSpaceOfJoin | scriptWithObjects.js:148 | `split(/\s+/)` takes apart what `join(' ')` put together, for non-empty words without white space |
| JsText.WordSpan | scriptWithObjects.js:136 | the `(\w*)` capture is no longer than the line |
| JsText.WordSpanFacts | scriptWithObjects.js:136 | the `(\w*)` capture is made of word characters and is longest: the next character is not one |
| JsText.SkipPlainSpaces | scriptWithObjects.js:136 | `(?: )*` never lengthens the text |
| JsText.SkipPlainSpacesFacts | scriptWithObjects.js:136 | `(?: )*` skips only U+0020 characters, all of them, and keeps the rest |
| JsText.LineSpan | scriptWithObjects.js:136 | the `(.*)` capture is no longer than the text |
| JsText.LineSpanFacts | scriptWithObjects.js:136 | the `(.*)` capture holds no line terminator and stops only at one or at the end |
| JsText.MatchKeyword | scriptWithObjects.js:136-147 | the keyword capture is a prefix of the line, and the two captures together are no longer than the line |
| JsText.MatchKeywordFacts | scriptWithObjects.js:136-147 | the keyword is the longest word-character prefix of the line; `unparsedArgs` starts after the plain spaces that follow and runs to the first line terminator |
| JsText.WordSpanOfWordThen | scriptWithObjects.js:136 | a word followed by a non-word character is captured whole |
| JsText.WordSpanWhole | scriptWithObjects.js:136 | a text of word characters is captured whole |
| JsText.LineSpanWhole | scriptWithObjects.js:136 | a text without line terminators is captured whole by `(.*)` |
| JsText.Join | scriptWithObjects.js:120 | a join of at least one part starts with the first part |
| JsText.JoinEndsWithLast | scriptWithObjects.js:120 | a join ends with the last character of the last word |
| JsText.JoinHasNoLineTerminator | scriptWithObjects.js:120 | joining words without white space by spaces gives a text without line terminators |
| JsText.DirectiveLineIsTrimmed | scriptWithObjects.js:139-142 | a keyword line written with single spaces is its own trim, is not empty and is not a comment |
| JsText.DirectiveLineKeyword | scriptWithObjects.js:143-147 | such a line's captures are the keyword and the arguments joined by spaces |
| JsText.DirectiveLine | scriptWithObjects.js:136-148 | such a line reads back as its keyword, its arguments as `parts`, and their join as `unparsedArgs` |
| JsText.BareKeywordLine | scriptWithObjects.js:139-147 | a line that is one bare word is trimmed, not skipped, and is its own keyword |
| JsText.Floats | scriptWithObjects.js:94-105 | `parts.map(parseFloat)` has one number per part, each the `parseFloat` of that part |
| JsText.ParseInt | scriptWithObjects.js:79 | a text that is blank after its leading white space reads as NaN, and a negative result comes from a text whose first non-space character is `-` |
| JsText.DigitValue | scriptWithObjects.js:79 | a character's digit value is at most 36, 36 meaning "not a digit" |
| JsText.DigitSpan | scriptWithObjects.js:79 | the digit prefix `parseInt` reads is no longer than the text |
| JsText.DigitSpanFacts | scriptWithObjects.js:79 | that prefix is made of digits of the radix and is longest |
| JsText.DigitSpanWhole | scriptWithObjects.js:79 | a text made only of digits is read whole |
| JsText.NatToString | scriptWithObjects.js:79 | the decimal numeral of a natural number is made of digits, without a leading zero |
| JsText.DigitsOfNat | scriptWithObjects.js:79 | the digits of a numeral denote its number |
| JsText.ParseUnsignedOfNat | scriptWithObjects.js:79 | an unsigned decimal numeral reads back as its number |
| JsText.ParseIntOfDecimal | scriptWithObjects.js:79 | `parseInt(String(k)) == k` for every integer `k`, negative ones included |
| JsObject.InheritedMember | scriptWithObjects.js:149-154 | only a name made of word characters can find a member of `Object.prototype`, so only a bare-word keyword reaches one |
| Obj.EmptyBuffers | scriptWithObjects.js:48-67 | a new geometry has all four buffers, all empty |
| Obj.Init | scriptWithObjects.js:8-34 | the stores hold their sentinels, no geometry exists or is open, the context is 'default' |
| Obj.NewGeometry | scriptWithObjects.js:38-44 | only the open flag changes; a geometry stays open exactly when it was open and holds no position |
| Obj.SetGeometry | scriptWithObjects.js:46-71 | afterwards a geometry is open; an open one is kept; otherwise one with the current context and empty buffers is appended and nothing else changes |
| Obj.AppendToOpen | scriptWithObjects.js:81 | appending to the open geometry keeps the state consistent and the geometry open |
| Obj.AppendToOpenFacts | scriptWithObjects.js:81 | the append grows buffer `a` of the open geometry by the tuple and changes no other buffer, geometry or variable |
| Obj.AddField | scriptWithObjects.js:75-87 | an empty field adds nothing; a field that succeeds keeps a geometry open |
| Obj.AddFieldFacts | scriptWithObjects.js:75-87 | a field that succeeds appends the tuple its (possibly negative) index resolves to, and the color at the same index for a position field while colors are in use; every other buffer of the open geometry, every closed geometry and every other variable stay as they were; it throws exactly when it is a fifth field, is NaN, resolves outside its store, or resolves past the colors |
| Obj.AddFields | scriptWithObjects.js:74-87 | the fields processed in order keep a geometry open |
| Obj.AddFieldsFrame | scriptWithObjects.js:74-87 | the fields of a reference change only the open geometry's buffers, and only by growing them |
| Obj.AddVertex | scriptWithObjects.js:73-88 | `addVertex` that returns keeps a geometry open |
| Obj.AddVertices | scriptWithObjects.js:107-113 | calling `addVertex` on references in turn keeps a geometry open |
| Obj.AddVerticesFrame | scriptWithObjects.js:107-113 | those calls change only the open geometry's buffers, and only by growing them |
| Obj.Fan | scriptWithObjects.js:109-113 | the fan loop passes `3 * t` references, `parts[0]`, `parts[j + 1]`, `parts[j + 2]` for triangle `j` |
| Obj.Face | scriptWithObjects.js:107-114 | an `f` line that returns leaves a geometry open; one with fewer than three references only opens a geometry |
| Obj.FaceFrame | scriptWithObjects.js:107-114 | a face changes only the buffers of the geometry it opened or found open, and only by growing them |
| Obj.Apply | scriptWithObjects.js:90-133 | every handler keeps the state consistent; `s` and a keyword without a handler change nothing |
| Obj.Step | scriptWithObjects.js:138-154 | one iteration keeps the state consistent; an empty line, a comment and a keyword without a handler change nothing |
| Obj.Lines | scriptWithObjects.js:137-155 | every state the line loop reaches is consistent |
| Obj.WithoutEmptyBuffers | scriptWithObjects.js:158-161 | exactly the non-empty buffers are kept, unchanged |
| Obj.Finalize | scriptWithObjects.js:157-161 | every geometry, in order, keeps its context and only its non-empty buffers |
| Obj.Parse | scriptWithObjects.js:6-167 | every buffer of every geometry `parseOBJ` returns is non-empty |
| Obj.AddFieldByIndex | scriptWithObjects.js:79-81 | two fields resolving to the same index append the same tuples, or fail together |
| Obj.NegativeIndexMirrorsPositive | scriptWithObjects.js:79-81 | a reference `k - len` and the reference `k` name the same tuple of a store of `len` tuples |
| Obj.ParseMinusOne | scriptWithObjects.js:79 | `parseInt("-1")` is -1 |
| Obj.MinusOneIsMostRecent | scriptWithObjects.js:79-86 | for each of the four fields, the reference `-1` appends the tuple stored most recently; as a position field while colors are in use it also appends the color at that same index, or throws `ColorNotFound` when the colors are fewer than the positions |
| Obj.VertexLine | scriptWithObjects.js:91-99 | a `v` line with more than three numbers adds a position of the first three and a color of the rest; otherwise all of them are the position; nothing else changes |
| Obj.StepOfDirectiveLine | scriptWithObjects.js:138-154 | a line written as a keyword and arguments runs that keyword's handler on those arguments |
| Obj.MaterialLibraryLine | scriptWithObjects.js:117-121 | an `mtllib` line appends its names joined by single spaces, and changes nothing else |
| Obj.EmptyGeometryIsReused | scriptWithObjects.js:38-44 | after `o`, `g` or `usemtl`, an open geometry without positions stays open, and the next face adds to it |
| Obj.FilledGeometryIsClosed | scriptWithObjects.js:38-71 | after `o`, `g` or `usemtl`, an open geometry with positions is closed, and the next face opens a new one with the new context, after the old ones |
| Obj.FaceKeeps | scriptWithObjects.js:107-114 | a face only grows the open geometry: closed geometries, stores and context are kept, and the sentinels stay |
| Obj.NewGeometryKeeps | scriptWithObjects.js:38-44 | `newGeometry` closes only a geometry that holds a position |
| Obj.AppendsKeep | scriptWithObjects.js:91-121 | growing only the stores and the library list extends the state and keeps the invariant |
| Obj.StoreLineKeeps | scriptWithObjects.js:91-121 | `v`, `vn`, `vt`, `s`, `mtllib` and keywords without a handler extend the state and keep the invariant |
| Obj.ContextLineKeeps | scriptWithObjects.js:122-133 | `usemtl`, `g` and `o` extend the state and keep the invariant |
| Obj.ApplyKeeps | scriptWithObjects.js:90-133 | every handler extends the state and keeps the invariant |
| Obj.StepKeeps | scriptWithObjects.js:138-154 | every iteration extends the state and keeps the invariant |
| Obj.LinesKeep | scriptWithObjects.js:137-155 | every state the loop reaches is extended by the final one, which keeps the invariant |
| Obj.ParsedGeometriesHavePositions | scriptWithObjects.js:38-44 | in a parsed model every geometry but the last has a position buffer |
| Obj.StepAsWritten | scriptWithObjects.js:138-154 | the iteration as written throws on a keyword without a handler that finds a throwing member of `Object.prototype`; it keeps the state consistent, and it differs from the intended step only on such a line, where the intended step changes nothing |
| Obj.PrototypeKeywordAborts | scriptWithObjects.js:149-154 | such a line makes the iteration as written throw, while the intended iteration leaves the state unchanged |
| Obj.ValueOfLineAborts | scriptWithObjects.js:149-154 | the OBJ line `valueOf` is such a line |
| Obj.LinesAsWritten | scriptWithObjects.js:137-155 | the line loop as written, where it does not throw, reaches a consistent state, the one the intended loop reaches |
| Obj.ParseAsWritten | scriptWithObjects.js:6-167 | `parseOBJ` as written, where it does not throw, returns what the intended parse returns |
| Obj.PrototypeLineAbortsLines | scriptWithObjects.js:137-155 | a line naming a throwing `Object.prototype` member, at any position, makes the line loop as written throw |
| Obj.PrototypeLineAbortsParse | scriptWithObjects.js:137-155 | a text one of whose lines names a throwing `Object.prototype` member makes `parseOBJ` as written throw |
| Obj.ValueOfTextAborts | scriptWithObjects.js:137-155 | the text `valueOf` makes `parseOBJ` as written throw, where the intended parse returns an empty model |
| ObjParsing.ObjParser.constructor | scriptWithObjects.js:8-34 | the parser's variables start as the initial state |
| ObjParsing.ObjParser.NewGeometry | scriptWithObjects.js:38-44 | the new state is `newGeometry` of the old |
| ObjParsing.ObjParser.SetGeometry | scriptWithObjects.js:46-71 | the new state is `setGeometry` of the old |
| ObjParsing.ObjParser.Push | scriptWithObjects.js:81 | the new state is the old with the tuple appended to the open buffer |
| ObjParsing.ObjParser.AddField | scriptWithObjects.js:75-87 | the callback succeeds exactly when the field function does, and then leaves its state; otherwise it throws its error |
| ObjParsing.ObjParser.AddVertex | scriptWithObjects.js:73-88 | the `forEach` loop performs `addVertex`: same state, or the first field's error |
| ObjParsing.ObjParser.Triangle | scriptWithObjects.js:110-112 | one iteration of the fan loop extends the references processed by the triangle's three, or throws their first error |
| ObjParsing.ObjParser.Face | scriptWithObjects.js:107-114 | the fan loop performs the `f` handler: same state, or the first error |
| ObjParsing.ObjParser.Apply | scriptWithObjects.js:90-133 | the handler for a directive performs that handler's step |
| ObjParsing.ObjParser.Step | scriptWithObjects.js:138-154 | one iteration performs one step of the line loop |
| ObjParsing.ObjParser.RemoveEmptyBuffers | scriptWithObjects.js:157-161 | the loop leaves every geometry with only its non-empty buffers and changes nothing else |
| ObjParsing.ParseObj | scriptWithObjects.js:6-167 | `parseOBJ`, with the intended keyword lookup, returns the model of `Obj.Parse`, or throws its error |
| ObjParsing.AddFieldsStaysFailed | scriptWithObjects.js:75-87 | a field that throws ends the `forEach`: later fields do not change the outcome |
| ObjParsing.AddVerticesSnoc | scriptWithObjects.js:107-113 | one more reference continues from where the earlier ones left off |
| ObjParsing.AddVerticesStaysFailed | scriptWithObjects.js:107-113 | a reference that throws ends the face: later references do not change the outcome |
| ObjParsing.FanFails | scriptWithObjects.js:107-113 | a triangle that throws makes the whole face throw that error |
| ObjParsing.FanPrefix | scriptWithObjects.js:109-113 | the references of the first `u` triangles begin the references of the first `t` |
| ObjParsing.LinesSnoc | scriptWithObjects.js:137-155 | one more line continues from where the earlier lines left off |
| ObjParsing.LinesStayFailed | scriptWithObjects.js:137-155 | a line that throws ends the parse with its error |
| Mtl.SetField | scriptWithObjects.js:184-194 | a property directive writes its own field with the value read from its arguments, and no other field |
| Mtl.GetDetermines | scriptWithObjects.js:184-194 | every field of a record is the field of some property directive |
| Mtl.ArgumentsRead | scriptWithObjects.js:169-194 | `Ns`, `Ni`, `d` and `illum` read only their first argument, the maps read only the raw remainder through `parseMapArgs`, and the colors read every argument |
| Mtl.Init | scriptWithObjects.js:175-176 | no materials, and no current record |
| Mtl.Apply | scriptWithObjects.js:178-195 | `newmtl` binds its name to an empty record and makes it current; a property directive throws exactly when no record is current, and otherwise writes only the current record; other records are kept; a keyword without a handler changes nothing |
| Mtl.Step | scriptWithObjects.js:199-215 | one iteration keeps the state consistent; an empty line, a comment and a keyword without a handler change nothing |
| Mtl.Lines | scriptWithObjects.js:198-216 | every state the line loop reaches is consistent |
| Mtl.Parse | scriptWithObjects.js:174-219 | the materials `parseMTL` returns are named by exactly the names of its `newmtl` lines |
| Mtl.StepNames | scriptWithObjects.js:179-182 | one iteration adds a name exactly when the line is a `newmtl` for it, and never removes one |
| Mtl.NamesAreDeclared | scriptWithObjects.js:197-216 | a name is in the state the loop reaches exactly when some line is a `newmtl` for it |
| Mtl.MapLineKeepsFileName | scriptWithObjects.js:169-172 | `parseMapArgs` passes the arguments through: a `map_Kd` line sets the diffuse map to its words joined by single spaces, and changes nothing else |
| Mtl.PropertyLineWritesOneField | scriptWithObjects.js:184-194 | after a `newmtl`, a property line writes only its own field of that record, and no name is added |
| Mtl.RepeatedNameReplaces | scriptWithObjects.js:179-182 | a `newmtl` for a name already bound replaces its record with an empty one |
| Mtl.PropertyBeforeNewMtlThrows | scriptWithObjects.js:176-194 | a property line before any `newmtl` throws |
| Mtl.ThreeLineLibrary | scriptWithObjects.js:174-219 | the library `newmtl M`, `Kd r g b`, `d o` binds `M` to a record with that diffuse color and opacity, and no other field |
| Mtl.ThreeLines | scriptWithObjects.js:198-218 | three lines and a final line break give the state the third line reaches |
| Mtl.NewMtlLine | scriptWithObjects.js:179-182 | `newmtl` and a name, from the start, binds a fresh record to that name and makes it current |
| Mtl.KdLine | scriptWithObjects.js:186 | `Kd` and components set the diffuse color of the only record |
| Mtl.OpacityLine | scriptWithObjects.js:193 | `d` and a number set the opacity of the only record |
| Mtl.PropertyOnOnlyRecord | scriptWithObjects.js:184-194 | a property directive on a library of one current record writes that record |
| Mtl.NoLineBreak | scriptWithObjects.js:198 | a directive line holds no line break |
| Mtl.NamedLine | scriptWithObjects.js:204-215 | a line written as a keyword and arguments is dispatched to that keyword's handler |
| Mtl.StepAsWritten | scriptWithObjects.js:199-215 | the iteration as written throws on a keyword without a handler that finds a throwing member of `Object.prototype`; it keeps the state consistent, and it differs from the intended step only on such a line, where the intended step changes nothing |
| Mtl.PrototypeKeywordAborts | scriptWithObjects.js:210-215 | such a line makes the iteration as written throw, while the intended iteration leaves the state unchanged |
| Mtl.HasOwnPropertyLineAborts | scriptWithObjects.js:210-215 | the MTL line `hasOwnProperty` is such a line |
| Mtl.LinesAsWritten | scriptWithObjects.js:198-216 | the line loop as written, where it does not throw, reaches a consistent state, the one the intended loop reaches |
| Mtl.ParseAsWritten | scriptWithObjects.js:174-219 | `parseMTL` as written, where it does not throw, returns what the intended parse returns |
| Mtl.PrototypeLineAbortsLines | scriptWithObjects.js:198-216 | a line naming a throwing `Object.prototype` member, at any position, makes the line loop as written throw |
| Mtl.PrototypeLineAbortsParse | scriptWithObjects.js:198-216 | a text one of whose lines names a throwing `Object.prototype` member makes `parseMTL` as written throw |
| Mtl.HasOwnPropertyTextAborts | scriptWithObjects.js:198-216 | the text `hasOwnProperty` makes `parseMTL` as written throw, where the intended parse returns no materials |
| MtlParsing.MtlParser.constructor | scriptWithObjects.js:175-176 | the parser starts in the initial state |
| MtlParsing.MtlParser.Apply | scriptWithObjects.js:178-195 | the handler updates the map and current record as the specification's step does, or throws its error |
| MtlParsing.MtlParser.Step | scriptWithObjects.js:199-215 | one iteration performs one step of the line loop |
| MtlParsing.ParseMtl | scriptWithObjects.js:174-219 | `parseMTL`, with the intended keyword lookup, returns the materials of `Mtl.Parse`, or throws its error |
| MtlParsing.LinesSnoc | scriptWithObjects.js:198-216 | one more line continues from where the earlier lines left off |
| MtlParsing.LinesStayFailed | scriptWithObjects.js:198-216 | a line that throws ends the parse with its error |
| Tangents.VertexIndex | scriptWithObjects.js:221-234 | call `k` of the iterator gives `indices[k]` (undefined past the end), or `k` without indices |
| Tangents.IndexIterator.OverIndices | scriptWithObjects.js:221-227 | the counter starts at 0 and `numElements` is the number of indices |
| Tangents.IndexIterator.OverPositions | scriptWithObjects.js:229-235 | the counter starts at 0 and `numElements` is `positions.length / 3` |
| Tangents.IndexIterator.Next | scriptWithObjects.js:223 | a call returns the index at the counter and advances it by one |
| Tangents.IndexIterator.Reset | scriptWithObjects.js:224 | `reset` sets the counter back to 0 |
| Tangents.SliceContents | scriptWithObjects.js:250-256 | a slice holds the `width` elements asked for where the buffer has them, nothing for an undefined index, and never more than `width` |
| Tangents.SubtractVector2 | scriptWithObjects.js:237 | element `i` is `a[i] - b[i]`, NaN where `b` has no element |
| Tangents.FiniteFactorIsSourceTest | scriptWithObjects.js:261-266 | `Number.isFinite(1 / det)` holds exactly when every coordinate exists and the determinant is not zero |
| Tangents.RawTangentIsUDirection | scriptWithObjects.js:265-270 | when the edges are `t` and `b` combined by the texture-coordinate differences, the raw tangent is `t` |
| Tangents.RawTangentComponent | scriptWithObjects.js:265-270 | component `j` of the raw tangent is `(dp12[j] * duv13[1] - dp13[j] * duv12[1]) / det` |
| Tangents.DegenerateCoordinatesGiveDefault | scriptWithObjects.js:265-271 | a zero determinant gives `[1, 0, 0]` |
| Tangents.MissingCoordinatesGiveDefault | scriptWithObjects.js:254-271 | a vertex without texture coordinates gives `[1, 0, 0]` |
| Tangents.FiniteFactorGivesUDirection | scriptWithObjects.js:265-271 | otherwise the tangent is the normalised direction in which the first texture coordinate grows |
| Tangents.LoopTest | scriptWithObjects.js:241-245 | `i < numFaces` holds exactly while `i` is below the triangle count, `numFaces` rounded up |
| Tangents.WholePositionsCover | scriptWithObjects.js:246-256 | when every index names a whole position, every triangle has the positions its tangent needs |
| Tangents.FaceTangents | scriptWithObjects.js:245-273 | one tangent per triangle |
| Tangents.FaceTangentsAt | scriptWithObjects.js:245-273 | element `f` of the list is triangle `f`'s tangent |
| Tangents.Repeat3Length | scriptWithObjects.js:273 | nine numbers per tangent |
| Tangents.Repeat3Face | scriptWithObjects.js:273 | tangent `f` fills positions `9f` to `9f + 8` with three copies |
| Tangents.Repeat3Snoc | scriptWithObjects.js:273 | one more tangent appends its three copies |
| Tangents.Repeat3Copies | scriptWithObjects.js:273 | the nine numbers of tangent `f` are its components three times over |
| Tangents.Tangents | scriptWithObjects.js:239-277 | the tangent buffer has nine numbers per triangle |
| Tangents.TangentsShape | scriptWithObjects.js:239-277 | the result has nine numbers per triangle, and each of a triangle's three vertices gets the triangle's tangent |
| Tangents.UnindexedFaceCount | scriptWithObjects.js:233-245 | without indices, a position buffer of whole triangles gives nine tangent numbers for every nine position numbers; otherwise the count rounds up to the next whole triangle |
| Tangents.TangentsStep | scriptWithObjects.js:273 | one more triangle appends its tangent three times |
| Tangents.CallsOfFace | scriptWithObjects.js:246-256 | the iterator's calls `3f` to `3f + 2` give triangle `f`'s slices and tangent |
| Tangents.NextTangent | scriptWithObjects.js:246-271 | the loop body computes triangle `f`'s tangent and advances the iterator by three |
| Tangents.GenerateTangents | scriptWithObjects.js:239-277 | `generateTangents` returns the tangents of the specification |
| Assemble.Prepare | scriptWithObjects.js:474-500 | preparing throws exactly when the positions are missing and the color or tangent step reads them |
| Assemble.PrepareKeepsBuffers | scriptWithObjects.js:474-500 | every buffer is passed on unchanged; colors are marked three-component exactly when they have as many numbers as the positions; every missing attribute gets its constant |
| Assemble.TangentData | scriptWithObjects.js:486-487 | generated tangents have at least one number per position number, and fewer than nine more |
| Assemble.TangentsForWholeTriangles | scriptWithObjects.js:486-487 | with texture coordinates, normals and whole triangles of positions, the generated tangents have one number per position number |
| Assemble.TextureFor | scriptWithObjects.js:394-411 | a map file gets its own texture unless it is named like one of the two defaults, and then it gets that default |
| Assemble.Merge | scriptWithObjects.js:506-510 | a material name the library does not define is drawn with the default material |
| Assemble.RecordOverridesDefaults | scriptWithObjects.js:506-510 | each property the record sets wins over the default; each it leaves unset is the default |
| Assemble.DiffuseFromLibrary | scriptWithObjects.js:186 | the color a `Kd` line set is the diffuse color the part is drawn with |
| Assemble.Hacked | scriptWithObjects.js:445-448 | the loop keeps every material name |
| Assemble.HackedMaterialsShine | scriptWithObjects.js:445-448 | after that loop a defined material is drawn with shininess 25 and white specular color, and its own values for the rest |
| Assemble.Parts | scriptWithObjects.js:461-514 | the parts succeed exactly when every geometry prepares; then there is one per geometry, in order, with merged material and prepared data |
| Assemble.ParsedModelFailsOnlyAtLast | scriptWithObjects.js:461-500 | for a parsed model only the last geometry can make `main` throw, and only when it has colors or tangent sources but no positions |
| Scene.IndexOf | script.js:46 | `indexOf` is -1 exactly when the node is absent, and otherwise the first position holding it |
| Scene.Removed | script.js:45-50 | detaching shortens the old parent's array by one when the node is there, and leaves it as it was otherwise |
| Scene.RemovedCons | script.js:45-50 | past a first child that is not the node, the removal happens in the rest |
| Scene.RemovedIsRemoveFirst | script.js:45-50 | the `indexOf`-and-`splice` removal drops exactly the first occurrence and keeps the order |
| Scene.RemovedElements | script.js:45-50 | the removal takes exactly one occurrence of the node out of the multiset of children, when there is one |
| Scene.RemovedMembers | script.js:45-50 | in an array without duplicates, the removal keeps every child but the node, and no duplicates |
| Scene.MovedToEnd | script.js:43-57 | re-parenting under the same parent keeps the child count and the children, and puts the node last |
| Scene.Node.constructor | script.js:37-41 | a new node has no children and no parent |
| Scene.Node.SetParent | script.js:43-57 | the node hangs under `p`; the old parent lost its first occurrence; the new parent gained it at the end; the node's own children change only when it is one of the parents |
| Scene.SetParentKeepsLinked | script.js:43-57 | `setParent` keeps a consistent graph consistent: parents hold their children, children point back, and no array holds a child twice |
| Scene.Reparent | script.js:43-57 | a call of `setParent` on a node of a consistent graph, with a parent from that graph, leaves the graph consistent |

## Left out

- `parseFloat` is a parameter of the parsers, a function from text to real. Its number
  syntax, NaN and infinities are not modelled.
- `m4.normalize` is a parameter of the tangent functions.
- `m4.subtractVectors` and `m4.scaleVector` are written out on three-component vectors
  (`Tangents.Sub3`, `Tangents.Scale3`). The `m4` library itself is not part of this model.
- All arithmetic is exact arithmetic on reals: floating-point rounding, overflow and
  underflow are not modelled.
- JsText.ParseInt: integers are exact. The rounding of numerals beyond 2^53 to the nearest
  double is not modelled.
- A JavaScript value that may be NaN is an `Option`, only where `generateTangents` tests it
  (`Number.isFinite`).
- Tangents.GenerateTangents: requires that every triangle whose factor is finite has whole
  positions. There the raw tangent has NaN components; what `m4.normalize` makes of them is
  not modelled.
- Assemble.TangentData: without that cover, the whole tangent buffer is the abstract value
  `NotANumber`. The raw tangents there have NaN components; what `m4.normalize` makes of
  them is not modelled.
- ObjParsing.ParseObj, MtlParsing.ParseMtl: follow the intended keyword lookup, as do
  `Obj.Parse` and `Mtl.Parse`. On a line naming a throwing member of `Object.prototype` the
  source throws; `Obj.ParseAsWritten` and `Mtl.ParseAsWritten` model that lookup (see
  Findings).
- `console.warn` for unhandled keywords is left out. It is output only, and the state is
  unchanged either way.
- The `if (!m) continue` branch after `keywordRE.exec` is left out. The expression always
  matches, so `JsText.MatchKeyword` is total.
- A material named `__proto__` is left out: `materials['__proto__'] = material` would set
  the map's prototype instead of adding a name.
- A texture file named like an `Object.prototype` member is left out: for example,
  `textures['constructor']` finds an inherited function.
- `Assemble.TextureFor` keys textures by file name only. The URL resolution against the
  base address, `fetch`, and `twgl.createTexture` are left out.
- The WebGL side is left out: `twgl.createBufferInfoFromArrays`, vertex array objects, the
  shaders, the second model at scriptWithObjects.js:414-442 and 517-565, extents, and
  rendering. The second model's parts are `Assemble.Parts` applied to its own geometries
  and library, without the shininess loop.
- `Node.prototype.updateWorldMatrix` and the local and world matrices of `Node` are left
  out. They are matrix arithmetic, outside the parent/child bookkeeping.
- In `Scene.Node.SetParent`, `undefined` as a parent is `null`. A value that is truthy but
  not a node is not modelled.
- Scene.SetParentKeepsLinked: states preservation for one call. Its requirements on the
  other nodes follow from `SetParent`'s `modifies` clause, as `Scene.Reparent` shows; a
  client repeating calls keeps the graph linked through `Reparent`'s contract.
- MTL's `material` variable is modelled by the name it was last stored under, so the
  record is updated through the map. The two agree because only `newmtl` binds names, and
  it always makes the new record current.

## Findings

| source | as written | input that shows it | evidently intended | confidence | as-written member | corrected member |
|---|---|---|---|---|---|---|
| scriptWithObjects.js:149-154 | `keywords[keyword]` on an object literal also finds the members of `Object.prototype`; calling `valueOf` with `this` undefined throws a TypeError that aborts `parseOBJ` | an OBJ text containing the line `valueOf` | a keyword the table does not define is skipped like any other unhandled keyword | not executed | Obj.ValueOfTextAborts | Obj.Step |
| scriptWithObjects.js:210-215 | the same lookup in `parseMTL`; calling `hasOwnProperty` with `this` undefined throws a TypeError that aborts `parseMTL` | an MTL text containing the line `hasOwnProperty` | a keyword the table does not define is skipped like any other unhandled keyword | not executed | Mtl.HasOwnPropertyTextAborts | Mtl.Step |
