# playout: a Dafny model of the schema compiler core

playout reads a small schema language, a `.playout` file. The file declares:

- descriptor set layouts (`#[set] struct S { ... }`), whose bindings are grouped under `#![stage(...)]` markers;
- one push-constant block (`#[push_constants] struct P { ... }`);
- plain data structs.

From the parsed `PlayoutModule`, the library and its procedural macros produce:

- the Vulkan create-info data for set layouts and push-constant ranges;
- GLSL declarations for the bindings;
- a `write_descriptor_sets!` expansion. It checks a batch of descriptor writes against the module, sorts and coalesces them, and emits one `vk::WriteDescriptorSet` per run. Each record points into shared `img_info` / `buffer_info` arrays.

This project models that core as Dafny datatypes, functions and methods, and proves what the code promises about it.

Modules, one concern each:

- `Outcomes`: the three ways an operation ends. `Ok`, `Err` (a `syn::Error` or a macro error message) and `Panic` (an `unwrap` of `None`, a `u32` overflow in a debug build, `todo!()`).
- `Types`: the entities of `src/types.rs` and `PlayoutModule`. This covers shader stages as a bit set, the 39 image formats in their declaration order, descriptor types, bindings, set and push-constant layouts, and data structs.
- `Tokens`: an abstract token tree standing in for `syn`'s parse stream, with the primitive parsers.
- `Keywords`: the keyword tables of the parser, proved exact against the names in `Types`.
- `Grammar`: every `Parse` impl of `src/parser.rs` as a total function on token sequences.
- `Parser`: the loops of `src/parser.rs` as methods, each proved equal to its `Grammar` function.
- `ParserFacts`: what the parser promises about binding numbering, stage markers, item attributes and the module loop.
- `Vk`: `macro/src/vk.rs`. It covers push-constant range collection, stage flags and descriptor types.
- `Glsl`: `src/glsl.rs`. It covers format qualifiers and binding declarations.
- `Write`, `WriteSort`, `WriteCoalesce`, `WriteEmit`, `WritePipeline`, `WritePairs`: `macro/src/write.rs`. They cover checking, stable sorting, coalescing and emission. `WriteEmit.WriteCtx` is the `DescriptorSetWriteCtx` whose arrays each update extends in place. `WriteSort.SortEntries` sorts an array in place.

Behaviours of the code that the model keeps:

- Consecutive subscripted writes to one binding never become one record. The coalescing slot of a run is seeded with the binding's `descriptor_count` (write.rs:189). Its adjacency test `prev.2 + prev.3 == curr.2` therefore never holds for two in-bounds writes to one binding. `WriteCoalesce.SameBindingNeverMerges` proves this.
- Equal sort keys can occur. A binding declared with zero descriptors marks nothing in the seen-set, so it can be written twice (`Write.EmptyBindingRewritable`). The model therefore sorts stably, as `sort_by_key` does.
- `src/types.rs` shows four `DescriptorType` variants and a `SetLayout` holding only bindings. The parser, `vk.rs` and `write.rs` use six variants and `name`/`set` fields, and the model follows those use sites. `glsl.rs` matches only the four variants of `src/types.rs` and reads no `name`/`set` field, so `Glsl` covers those four kinds (`DeclaredKind`).
- A push-constant range is opened with size 0 (macro/src/vk.rs:11), and only the later fields of its run add their padded sizes. The model keeps this, so a range's size leaves out its first field (`Vk.RangesAreRuns`).
- The module loop in `src/parser.rs:292-334` makes no progress on a token that is neither `#` nor `struct`. The model returns `Diverges` there (`ParserFacts.ModuleStalls`) rather than pretending to terminate.

## Model

| member | source | states |
|---|---|---|
| Types.StageBitsAreDistinctSingleBits | src/types.rs:3-18 | every stage flag is a single bit in 0x1..0x2000, and distinct stages have disjoint bits |
| Types.TaskAndMeshBitsLieBetweenComputeAndRaygen | src/types.rs:9-17 | TASK and MESH are declared last but their bits lie between COMPUTE and RAYGEN |
| Types.StageBitsMembership | src/types.rs:1-19 | a stage's bit is set in the flag word exactly when the stage is in the set; the word is below 0x4000 |
| Types.StageBitsFaithful | src/types.rs:1-19 | two stage sets have the same bits iff they are equal; no bits iff empty |
| Types.FormatBlocks | src/types.rs:47-93 | format positions are a bijection, and each data mode is one contiguous block of the declaration order |
| Types.FormatIndex | src/types.rs:47-93 | each format has a position in declaration order that maps back to it |
| Types.FormatNameSuffix | src/types.rs:47-93 | every format name ends with the suffix of its data mode |
| Tokens.ParseIdent | src/parser.rs:43 | succeeds iff the next token is an identifier (not a keyword), returning its name and the rest; never panics |
| Tokens.ParseAnyIdent | src/parser.rs:159-164 | `parse_any`: accepts identifiers and keywords alike |
| Tokens.ParsePunct | src/parser.rs:166 | succeeds iff the next token is that punctuation, consuming exactly it |
| Tokens.ParseKeyword | src/parser.rs:194 | succeeds iff the next token is that keyword, consuming exactly it |
| Tokens.ParseGroup | src/parser.rs:169-171 | succeeds iff the next token is a group of that delimiter, returning its body |
| Tokens.ParseLitU32 | src/parser.rs:149-150 | `base10_parse::<u32>`: succeeds iff the next token is an integer literal below 2^32 |
| Tokens.ParseTerminated | src/parser.rs:92-93 | empty input gives no items; never panics when the item parser never panics; a non-empty result starts with the first item |
| Tokens.TerminatedItems | src/parser.rs:92-93 | whatever `parse_terminated` accepts has the shape `item (sep item)* sep?`, and the result lists those items in order |
| Tokens.ItemsTerminated | src/parser.rs:92-93 | conversely, every token sequence of that shape is accepted with exactly its items |
| Keywords.FormatTableExact | src/parser.rs:41-87 | the format keyword table maps a name to a format iff it is that format's name, for every format except RGB10A2_UInt |
| Keywords.FormatTableRejectsRgb10a2UInt | src/parser.rs:74-83 | the table has no entry for `RGB10A2_UInt`, though the format exists |
| Keywords.StageTableExact | src/parser.rs:94-111 | the stage table maps a name to a stage iff it is that stage's name |
| Keywords.ScalarTableExact | src/parser.rs:339-358 | the scalar table maps a name to a scalar iff it is that scalar's name |
| Keywords.ShorthandTableExact | src/parser.rs:365-418 | the shorthand table is exact over shorthand types, and no shorthand name is also a scalar name |
| Grammar.ParseImageFormat | src/parser.rs:41-87 | succeeds iff the identifier names a format in the table; the result carries that name and is never RGB10A2_UInt |
| Grammar.StagesNamed | src/parser.rs:94-114 | succeeds iff every name is a stage; the set holds exactly the named stages |
| Grammar.ParseShaderStages | src/parser.rs:89-116 | an empty list gives the empty set; never panics |
| Grammar.ParseStageAttr | src/parser.rs:118-133 | succeeds iff the input is `#` `!` `[stage(...)]` with a stage list that parses, returning exactly that list's stages and consuming three tokens; never panics |
| Grammar.ParseScalar | src/parser.rs:339-358 | succeeds iff the identifier is a scalar name, returning that scalar |
| Grammar.ParsePrimitiveType | src/parser.rs:360-441 | success needs a leading identifier and consumes input; never panics |
| Grammar.ParseSegment | src/parser.rs:464 | `syn`'s path segment: an identifier, or `self`/`Self`/`super`/`crate`, carrying its name; generic arguments only after an identifier or `Self` |
| Grammar.ParsePathRest | src/parser.rs:464 | further segments are read exactly when a `::` not followed by a parenthesised group comes next |
| Grammar.ParsePath | src/parser.rs:463-466 | succeeds iff the path is one plain segment (an identifier or `self`/`Self`/`super`/`crate`, no generic arguments, no further `::` segment), giving a path type of that name; a leading `::` never succeeds |
| Grammar.TwoSegmentPathAborts | src/parser.rs:464-465 | `a::b` parses as a path, and `get_ident().unwrap()` panics |
| Grammar.LeadingColonAborts | src/parser.rs:464-465 | `::a` parses as a path, and `get_ident().unwrap()` panics |
| Grammar.DanglingColonIsError | src/parser.rs:464 | `a::` with no segment after the `::` is a parse error, not a panic |
| Grammar.OneArgument | src/parser.rs:464 | `<n>` is read as generic arguments |
| Grammar.ParseType | src/parser.rs:443-468 | consumes input, and the result is an array or slice iff the input starts with a bracket group |
| Grammar.ParseDescriptorType | src/parser.rs:11-39 | the leading identifier is the keyword of the parsed type; `Sampler` is never produced |
| Grammar.ParseField | src/parser.rs:470-480 | success means `ident :` at the head and the field carries that name |
| Grammar.ParseDataStruct | src/parser.rs:482-498 | success means `struct Name {..}`, exactly those three tokens consumed, named Name |
| Grammar.BindingAttrs | src/parser.rs:139-158 | the attribute loop stops at the first token that is not `#`; never panics |
| Grammar.ParseBindingType | src/parser.rs:168-179 | consumes input |
| Grammar.ParseBinding | src/parser.rs:135-190 | consumes input and leaves the stages empty for the set parser to fill |
| Grammar.SetTurn | src/parser.rs:247-276 | each turn of the set-body loop that continues has consumed input |
| Grammar.ParseSetLayout | src/parser.rs:235-286 | success consumes `struct Name {..}` and names the layout Name |
| Grammar.ParsePushConstants | src/parser.rs:192-233 | success consumes `struct Name {..}` and names the block Name |
| Grammar.ItemAttr | src/parser.rs:297-316 | without `#` nothing is consumed and the item is plain; with `#` input is consumed and the item is a set or the push-constant block |
| Parser.ReadShaderStages | src/parser.rs:89-116 | the loop over `\|`-separated names equals `Grammar.ParseShaderStages` |
| Parser.ReadStageAttr | src/parser.rs:118-133 | equals `Grammar.ParseStageAttr` |
| Parser.ReadBinding | src/parser.rs:135-190 | the attribute loop and type parse equal `Grammar.ParseBinding` |
| Parser.ReadSetLayout | src/parser.rs:235-286 | equals `Grammar.ParseSetLayout` |
| Parser.ReadSetTurn | src/parser.rs:247-276 | one turn of the set-body loop equals `Grammar.SetTurn` |
| Parser.ReadSetBody | src/parser.rs:244-276 | the set-body loop with its stage and binding-number cursors equals the recursive body |
| Parser.ReadPushConstants | src/parser.rs:192-233 | equals `Grammar.ParsePushConstants` |
| Parser.ReadPushBody | src/parser.rs:203-227 | the push-constant field loop equals the recursive body |
| Parser.ReadModule | src/parser.rs:288-337 | the module loop equals `ParseModule`, including divergence |
| ParserFacts.NumberedRule | src/parser.rs:261-275 | an explicit binding number is kept; binding 0 takes the cursor, which is the previous number plus one |
| ParserFacts.NumberedFromCursor | src/parser.rs:245-275 | without explicit numbers, bindings are numbered consecutively from the cursor |
| ParserFacts.NumberedRepeats | src/parser.rs:262-268 | explicit numbers can repeat: raw [2, 0, 2] gives [2, 3, 2] |
| ParserFacts.SetTurnPushes | src/parser.rs:247-276 | a loop turn pushes at most one binding, numbered by the cursor rule and carrying the current stages |
| ParserFacts.SetBodyNumbering | src/parser.rs:245-275 | the binding numbers of a parsed set are `Numbered` of the raw numbers from cursor 0 |
| ParserFacts.SetBodyStages | src/parser.rs:244-270 | every binding of a parsed set has a non-empty stage set |
| ParserFacts.SetBodyNeedsStages | src/parser.rs:255-260 | a binding before any stage marker is rejected with the source's message |
| ParserFacts.SetBodyMarker | src/parser.rs:248-251 | a stage marker replaces the current stages and the loop continues |
| ParserFacts.PushBodyStages | src/parser.rs:203-222 | every push-constant field has a non-empty stage set |
| ParserFacts.PushBodyNeedsStages | src/parser.rs:213-218 | a field before any stage marker is rejected with the source's message |
| ParserFacts.PushBodyMarker | src/parser.rs:206-209 | a stage marker replaces the current stages |
| ParserFacts.StageMarkerExample | src/parser.rs:118-133 | `#![stage(VERTEX \| FRAGMENT)]` parses to {Vertex, Fragment} |
| ParserFacts.StageMarkerUnknown | src/parser.rs:125-132 | an inner attribute other than `stage` is "unknown attribute" |
| ParserFacts.StageListRejectsUnknown | src/parser.rs:94-111 | any unknown name in a stage list gives "Invalid shader stage" |
| ParserFacts.ItemAttrSet | src/parser.rs:304-310 | `#[set]` takes the running set id and increments it |
| ParserFacts.ItemAttrSetNumbered | src/parser.rs:304-310 | `#[set = n]` takes n and resumes counting at n + 1 |
| ParserFacts.ItemAttrPushConstants | src/parser.rs:311-312 | `#[push_constants]` marks the push-constant block and leaves the counter |
| ParserFacts.ItemAttrUnknown | src/parser.rs:313-315 | any other item attribute is "unknown attribute" |
| ParserFacts.ModuleStalls | src/parser.rs:292-334 | a leading token other than `#` or `struct` makes the module loop spin forever |
| ParserFacts.SetLayoutStages | src/parser.rs:235-286 | every binding of a parsed set layout has stages |
| ParserFacts.PushConstantsStages | src/parser.rs:192-233 | every field of a parsed push-constant block has stages |
| ParserFacts.ModuleFromGrows | src/parser.rs:288-337 | the module loop only appends sets and adds data-struct keys |
| ParserFacts.ModuleWellFormed | src/lib.rs:14-19 | a parsed `PlayoutModule` is well formed: every binding and push-constant field has stages |
| ParserFacts.SetItemAttr | src/parser.rs:299-310 | the set attribute parses to the chosen id, or panics when id + 1 overflows u32 |
| ParserFacts.SetStructParse | src/parser.rs:235-286 | `struct Name {body}` parses to a layout of that name, set 0, with the parsed bindings |
| ParserFacts.PushStructParse | src/parser.rs:192-233 | `struct Name {body}` parses to a push-constant block with the parsed fields |
| ParserFacts.DataStructParse | src/parser.rs:482-498 | `struct Name {body}` parses to a data struct with the comma-separated fields |
| ParserFacts.SetItemTurn | src/parser.rs:320-324 | a set item appends its layout, with the chosen set id, to the module |
| ParserFacts.PushItemTurn | src/parser.rs:325-326 | a push-constant item replaces the module's push-constant block |
| ParserFacts.DataStructTurn | src/parser.rs:327-332 | a plain struct is inserted into the data-struct map under its name |
| ParserFacts.BindingAttrUnknown | src/parser.rs:155-157 | a binding attribute other than `binding` or `layout` is "unknown attribute" |
| ParserFacts.BindingAttrSetters | src/parser.rs:147-154 | `#[binding = n]` sets the number and `#[layout = l]` sets the layout, with the last one winning |
| ParserFacts.BindingCount | src/parser.rs:168-179 | `[T; n]` gives count n; a bare type gives count 1 |
| ParserFacts.BindingCountOf | src/parser.rs:168-179 | a bracketed `[T; n]` parses to (T, n) |
| ParserFacts.DescriptorTypeUnknown | src/parser.rs:14-35 | any other identifier is "Invalid descriptor type" |
| ParserFacts.StorageImageFormat | src/parser.rs:15-20 | `StorageImage<fmt>` parses to a storage image of that format |
| ParserFacts.PrimitiveNamed | src/parser.rs:360-418 | a bare name is a shorthand type, else a scalar, else "Invalid primitive type" |
| ParserFacts.PrimitiveGeneric | src/parser.rs:419-425 | `Vec3<u32>` style generics change the scalar of an f32 vector shorthand |
| ParserFacts.PrimitiveGenericOnShorthand | src/parser.rs:426-431 | generics on a non-f32 vector shorthand are rejected with the source's message |
| ParserFacts.PrimitiveGenericOnOthers | src/parser.rs:432-437 | generics on matrices and scalars are rejected with the source's message |
| ParserFacts.TypeForms | src/parser.rs:443-468 | a bracket group parses to an array `[T; n]` or a slice `[T]` of the inner type |
| ParserFacts.TypeGenericShorthandAborts | src/parser.rs:460-466 | `UVec3<u32>` as a field type, not followed by another `::` segment, reaches the path parser's `unwrap` of `None` and panics |
| Vk.PadToAlign | macro/src/vk.rs:15 | `pad_to_align`: the padded size is a multiple of the alignment and less than one alignment above the size |
| Vk.TruncU32 | macro/src/vk.rs:16 | `as u32` keeps values below 2^32 |
| Vk.CollectRanges | macro/src/vk.rs:5-18 | the fold over push-constant fields equals the range specification |
| Vk.PushConstantLayoutToVk | macro/src/vk.rs:5-34 | the emitted `vk::PushConstantRange`s equal the specification |
| Vk.RangesAfterInvariant | macro/src/vk.rs:6-18 | the fold keeps its range invariant |
| Vk.RangesContiguous | macro/src/vk.rs:9-12 | ranges are contiguous, and neighbouring ranges have different stages |
| Vk.Runs | macro/src/vk.rs:7-13 | the fields split into non-empty runs: laid end to end they are the fields, every field of a run has the run's stages, and neighbouring runs have different stages |
| Vk.RunsSplitAtStageChanges | macro/src/vk.rs:7-13 | the same three facts written out by index: concatenation gives the fields, equal stages within a run, different stages across neighbours |
| Vk.RangesAreRuns | macro/src/vk.rs:7-17 | each range is one run of equal-stage fields, with the run's stages, sized by the padded sizes of every field of the run but the first |
| Vk.FirstFieldWithoutStagesPanics | macro/src/vk.rs:14 | a first field without stages reaches the `unwrap` of `None` |
| Vk.RangesOkWhenSmall | macro/src/vk.rs:8-17 | a staged first field and a total below 2^32 give one range per run |
| Vk.ParsedModuleRangesOk | macro/src/vk.rs:14-16 | a parsed module's push constants give ranges when the total size fits in u32 |
| Vk.IterNamesExact | macro/src/vk.rs:60-63 | `iter_names` lists exactly the set's stages, in declaration order |
| Vk.StageFlagToVkExact | macro/src/vk.rs:60-67 | a Vulkan stage flag is emitted iff its stage is in the set |
| Vk.StageFlagToVkDistinct | macro/src/vk.rs:60-67 | no Vulkan stage flag is emitted twice |
| Vk.DescriptorTypeToVkExact | macro/src/vk.rs:69-90 | two descriptor types map to the same Vulkan type iff `same_type_as` holds |
| Vk.SetLayoutToVkExact | macro/src/vk.rs:36-58 | one Vulkan binding per binding, with its number, count, type and exactly its stages |
| Glsl.FormatQualifierExact | src/glsl.rs:4-46 | the corrected qualifier of each format is its name in the GLSL table, and only that |
| Glsl.FormatQualifierInjective | src/glsl.rs:4-46 | distinct formats get distinct corrected qualifiers |
| Glsl.AsWrittenDiffers | src/glsl.rs:14-37 | the source's qualifier differs from the standard one exactly for the two 10-10-10-2 formats |
| Glsl.AsWrittenNotStandard | src/glsl.rs:14-37 | the source's qualifiers for RGB10A2_UNorm and RGB10A2_UInt are not GLSL qualifiers |
| Glsl.AsWrittenInjective | src/glsl.rs:4-46 | the source's table is still injective |
| Glsl.FloatQualifiers | src/glsl.rs:6-12 | in the source's table and in the corrected one, float-format qualifiers end in `f` |
| Glsl.SNormQualifiers | src/glsl.rs:20-25 | in both tables, snorm qualifiers end in `_snorm` |
| Glsl.SIntQualifiers | src/glsl.rs:26-34 | in both tables, sint qualifiers end in `i` but not in `ui` |
| Glsl.UIntQualifiers | src/glsl.rs:35-44 | in both tables, uint qualifiers end in `ui`, the source's `rgb10a2ui` included |
| Glsl.ToDeclaration | src/glsl.rs:50-135 | the declaration builder equals `BindingDeclaration` over the source's qualifier table `to_layout_qualifier` (`FormatQualifierAsWritten`) |
| Glsl.DeclarationShape | src/glsl.rs:51-134 | for any qualifier table, only `Sampler` panics (`todo!()`); otherwise one uniform declarator named after the binding, with `set`/`binding` layout qualifiers and, for a storage image, the table's qualifier of its format |
| Glsl.DeclaredFormatQualifier | src/glsl.rs:64-70 | a storage image declared with the corrected table carries the GLSL qualifier of its format; with the source's table it does so exactly when the format is not one of the two 10-10-10-2 formats |
| Glsl.DeclarationType | src/glsl.rs:94-105 | storage image → `image2D`, sampled image → `sampler2D`, acceleration structure → `accelerationStructureEXT` |
| Glsl.SetDeclarationsInOrder | src/glsl.rs:138-147 | for any qualifier table, one declaration per binding, in order, each naming its binding |
| Write.FindSet | macro/src/write.rs:96-112 | finds a set of that name iff one exists |
| Write.FindSetFirst | macro/src/write.rs:96-100 | `find` returns the first set of that name |
| Write.BindingNamed | macro/src/write.rs:113-120 | finds a binding of that name iff one exists |
| Write.LastBindingWins | macro/src/write.rs:113-120 | collecting into a `BTreeMap` keeps the last binding of each name |
| Write.CheckField | macro/src/write.rs:126-175 | acceptance means the binding exists, the write is admissible and its start key is unseen; the seen-set grows by its marks; rejection names one of these reasons |
| Write.CheckedAfterFacts | macro/src/write.rs:124-176 | the checked entries pair up with the fields, are valid, and no key marked by a non-empty binding is taken twice |
| Write.CheckedTwo | macro/src/write.rs:125-176 | for two fields, the first failure is reported and the checks run in order |
| Write.WholeThenAnyFails | macro/src/write.rs:159-174 | after a whole-array write of a non-empty binding, any write to it is rejected |
| Write.AnyThenWholeFails | macro/src/write.rs:159-174 | after any write to a non-empty binding, a whole-array write to it fails |
| Write.SubscriptThenZeroFails | macro/src/write.rs:159-169 | a subscripted write marks element 0, so a later `[0]` is rejected |
| Write.ZeroThenSubscriptPasses | macro/src/write.rs:159-169 | `[0]` then `[k]` (k ≠ 0) passes when each passes alone |
| Write.SubscriptErrorOrder | macro/src/write.rs:136-146 | an out-of-range subscript is reported before "Not an array descriptor" |
| Write.EmptyBindingRewritable | macro/src/write.rs:149-174 | a zero-count binding can be written twice |
| Write.CheckOne | macro/src/write.rs:126-175 | one turn of the check loop equals `CheckField` |
| Write.CheckWrites | macro/src/write.rs:121-176 | the check loop equals the fold of `CheckField` |
| WriteSort.InsertSortedStable | macro/src/write.rs:177 | insertion keeps the order of equal keys |
| WriteSort.SortByKeyFacts | macro/src/write.rs:177 | `sort_by_key` gives a sorted permutation that keeps equal keys in input order |
| WriteSort.InsertAt | macro/src/write.rs:177 | one in-place insertion step extends the sorted prefix and leaves the suffix |
| WriteSort.SortEntries | macro/src/write.rs:177 | the in-place sort leaves the array equal to `SortByKey` of its old contents |
| WriteCoalesce.Merge | macro/src/write.rs:193-229 | merges iff the runs are adjacent, concatenating values; the slot grows within a binding and is replaced across bindings; the only panic is u32 overflow |
| WriteCoalesce.CoalesceRuns | macro/src/write.rs:180-229 | the coalescing loop equals the fold specification |
| WriteCoalesce.CoalesceHolds | macro/src/write.rs:193-229 | the runs partition the sorted entries into consecutive groups, each run holding its group |
| WriteCoalesce.ValuesConserved | macro/src/write.rs:193-229 | the runs' values, concatenated, are the entries' values in order |
| WriteCoalesce.SameBindingNeverMerges | macro/src/write.rs:189-209 | two in-bounds writes to one binding never merge, because the slot is seeded with `descriptor_count` |
| WriteCoalesce.CrossMergeEnds | macro/src/write.rs:210-228 | a run that crossed into a new binding accepts no further write |
| WriteCoalesce.AtMostTwoPerRun | macro/src/write.rs:202-228 | under the pair conditions, every run holds at most two writes |
| WriteEmit.RecordAsWritten | macro/src/write.rs:254-262 | the record as written: `dst_binding` is left at its default 0 |
| WriteEmit.Record | macro/src/write.rs:254-262 | the corrected record names the run's binding and start element; the count is `len() as u32` |
| WriteEmit.BuildersAgree | macro/src/write.rs:234-262 | the emission as written and the corrected one fail alike and fill the arrays alike; their records differ only in `dst_binding`, 0 as written |
| WriteEmit.WriteCtx.constructor | macro/src/write.rs:336-341 | `DescriptorSetWriteCtx::default()`: three empty arrays |
| WriteEmit.WriteCtx.EmitOne | macro/src/write.rs:230-263 | one run extends the array of its kind and returns the record as written (`dst_binding` 0) pointing at the old length; acceleration structures panic |
| WriteEmit.WriteCtx.EmitAll | macro/src/write.rs:230-265 | the emission loop equals the fold `EmitAfter` over the source's record and never gives an `Err` |
| WriteEmit.WriteCtx.UpdateIntoVk | macro/src/write.rs:91-267 | `into_vk` of one update equals `UpdateToVk` over the source's record; on an error the context is unchanged |
| WriteEmit.CountFields | macro/src/write.rs:272 | the loop counts the fields of all updates |
| WriteEmit.WriteArgsIntoVk | macro/src/write.rs:271-316 | the batch equals `WriteArgsToVk` over the source's record: an empty batch is an error, otherwise updates run in order through one context |
| WriteEmit.EmitNeverErrs | macro/src/write.rs:234-253 | emission never errs, and panics iff some run is an acceleration structure |
| WriteEmit.EmitStore | macro/src/write.rs:234-253 | one record per run; the image and buffer arrays grow by exactly the values of their kinds' runs; the view array is unchanged |
| WriteEmit.EmitRecords | macro/src/write.rs:230-262 | for either record builder, each record is that builder's record of its run, pointing at the run's position in its array |
| WritePipeline.EmitPointsAtValues | macro/src/write.rs:234-253 | record i points at exactly run i's values in the final arrays |
| WritePipeline.PointsAtExtends | macro/src/write.rs:304-316 | a pointer stays valid when later updates extend the arrays |
| WritePipeline.SortKeepsValues | macro/src/write.rs:177 | sorting keeps the multiset of written values |
| WritePipeline.UpdateKeepsValues | macro/src/write.rs:91-267 | a successful update only appends, and appends exactly the multiset of its fields' values |
| WritePipeline.UpdateRecords | macro/src/write.rs:177-262 | record i stands for coalesced group i: its set and start element are the group's first key, its binding is that key's binding (corrected) or 0 (as written), its type is that binding's type, its count is the group's values, and it points at them; all writes of a group have the same type kind and stages |
| WritePipeline.AsWrittenMissesBinding | macro/src/write.rs:254-262 | for any binding numbered other than 0, the record as written names binding 0 and the corrected one names the right binding |
| WritePipeline.BatchKeepsValues | macro/src/write.rs:304-324 | after a batch, the image and buffer arrays hold exactly the multiset of all written values, and the view array is empty |
| WritePipeline.BatchGrows | macro/src/write.rs:304-316 | each prefix of the batch gives a prefix of the records and of the arrays |
| WritePipeline.EmptyBatch | macro/src/write.rs:272-276 | a batch without fields is rejected; otherwise the result is the fold of the updates |
| WritePairs.SortedStrictly | macro/src/write.rs:159-177 | with distinct keys, the sorted keys strictly increase |
| WritePairs.CheckedSortedPairs | macro/src/write.rs:113-177 | in a set of non-empty bindings with unique numbers, the checked and sorted writes meet the pair conditions |
| WritePairs.UpdateAtMostTwo | macro/src/write.rs:177-229 | in such a set, every emitted record stands for at most two writes |

## Left out

- Lexing and `syn` spans: the parser works on an abstract token tree, and an error is its message without a span. Where `syn` defers an error to the end of a group, the model reports it at once.
- `Type::layout` (`std::alloc::Layout` of a field type) is a parameter of the push-constant functions, because its computation is not part of this model.
- GLSL declarations for uniform and storage buffers: the builder in `src/glsl.rs` names only the four image and acceleration-structure kinds, so `Glsl` requires those kinds (`DeclaredKind`).
- The `quote!`/`TokenStream` output of the macros and `p_immutable_samplers` are modelled as records and arrays, not as Rust source text.
- `macro/src/lib.rs` is not part of this model: it only hands the macro inputs to the modelled functions.
- The argument parsing of `write_descriptor_sets!` (macro/src/write.rs:19-88) is not modelled. Neither are loading and parsing the `.playout` file (278-302, where the parsed module is a parameter) or the final array quote (325-332).
- The coalescing iterator is lazy and interleaved with emission. The model coalesces all runs, then emits them. When one update both overflows a u32 in coalescing and reaches `todo!()` in emission, the source may panic with the other message first.
- Rust's stable `sort_by_key` (a merge sort) is modelled by a stable insertion sort. Both give the same result.
- The `usize` sum of field counts (macro/src/write.rs:272) is unbounded in the model, because overflow would need more than 2^64 fields.
- Vk.RangesOkWhenSmall: gives only a sufficient condition for success (a staged first field and a total padded size below 2^32). The exact condition would only restate the fold's own overflow checks.
- WritePairs.UpdateAtMostTwo: holds only for sets whose bindings are non-empty and uniquely numbered. Zero-count bindings and repeated numbers can give longer runs in the code.
- Grammar.ParsePath: generic arguments after a segment are read as balanced `<` … `>` punctuation, not by `syn`'s grammar of generic arguments; `try` as a segment (accepted by `syn` only with its `full` feature, which the manifest decides and which is not part of this model) is not modelled, and `<=` and `::` are recognised from single punctuation characters without `syn`'s check that they are written joined.
- `Type::Array`'s size is taken to be a `u32`: the definition of `Type` is not part of this model, and `base10_parse()` (src/parser.rs:455) parses into whatever width that field has.
- The set-item loop is described by its turn lemmas (`SetItemTurn`, `PushItemTurn`, `DataStructTurn`), not by one lemma over a whole module text.

## Findings

| source | as written | input that shows it | evidently intended | confidence | as-written member | corrected member |
|---|---|---|---|---|---|---|
| src/glsl.rs:14-37 | `RGB10A2_UNorm` emits the qualifier `rgb10a2`, and `RGB10A2_UInt` emits `rgb10a2ui` | a storage image binding of format `RGB10A2_UNorm` | `rgb10_a2` and `rgb10_a2ui`, the layout qualifiers of section 4.4.7 of the OpenGL Shading Language 4.60 specification | not executed | Glsl.AsWrittenNotStandard | Glsl.DeclaredFormatQualifier |
| macro/src/write.rs:254-262 | `vk::WriteDescriptorSet` never sets `dst_binding`, so `..Default::default()` leaves it 0 | any write to a binding numbered 1, e.g. `#[binding = 1]` | `dst_binding` set to the run's binding number | not executed | WritePipeline.AsWrittenMissesBinding | WritePipeline.UpdateRecords |
