# A verified model of the Turbopack and Next.js core logic

Turbopack is the incremental bundler of Next.js. Next.js drives it from Rust crates that configure it for the app and pages routers. Most of that code is orchestration: cached task functions, reads of value cells, file-system and network access, and threads. Underneath sits sequential logic over strings, lists and maps. This project models that logic in Dafny and proves what the code promises about it.

The model covers:

- **Paths and patterns.** The request `Pattern` language of the resolver: building, normalising, stripping, path normalisation, matching and templates. Also the string operations of `FileSystemPath`, the rebasing of trace globs, the asset paths of Next.js and the chunk and asset names of the browser and Node.js chunking contexts.
- **Rules and decisions.**
  - The module-rule conditions: simplification and stack-based evaluation.
  - The conversion of webpack loader conditions and the ordered rule list.
  - The rule loop that turns a source into a module.
  - The three externals decisions: Turbopack's `replace_external`, the Next.js server's resolve plugin and the rspack binding's `handle_externals`.
- **Resolve results.** Merging alternatives, rewriting request keys and adding conditions.
- **Configuration and routes.**
  - Segment-config inheritance and parallel merging.
  - The `NextConfig` accessors.
  - Project option updates, the entrypoints merge and the endpoint list.
  - Metadata routes and images.
  - The server resolve options.
- **ECMAScript analysis.** The analysis-result builder, dynamic-export detection, star-export expansion, missing-export decisions, re-export following and pieces of the variable-graph analyser.
- **Byte layouts.**
  - The mappings of `CodeBuilder` and the sections of the index source map built from them (Source Map Revision 3).
  - The blocks, headers and offsets of turbo-persistence's static sorted files.
  - Conversion between byte offsets and line/column positions in issues.
  - Source-map source rewriting and ignore lists.
- **State machines.**
  - Invalidation reason sets.
  - The update-cell operation and the task guard of the backend.
  - Local tasks and cell counters of the task manager.
  - `RawVc` resolution and the value-type registry.
  - The non-recursive disk watcher's set of watched directories.

Each core source file is one Dafny module in a file of its own. Code that rewrites state in place is modelled as classes with `modifies` clauses or as methods with loops, each proved against a specification function. Pure code is modelled as functions with lemmas. Things the logic only consults are parameters of the model: file contents, resolvers, regular expressions, hashes and the results of other tasks. `Wrappers` (Option and Result), `Text` (string helpers), `Ordering` (derived lexicographic orders and a sort) and `TaskIds` are shared helpers.

## Model

| member | source | states |
|---|---|---|
| Patterns.CharTokens | turbopack/crates/turbopack-core/src/resolve/pattern.rs:22-29 | the meaning of a constant is one literal character per character of the string, in order |
| Patterns.TokensListAppend | turbopack/crates/turbopack-core/src/resolve/pattern.rs:22-29 | the meaning of a concatenation of two part lists is the meaning of the first followed by that of the second |
| Patterns.CharTokensAppend | turbopack/crates/turbopack-core/src/resolve/pattern.rs:42-52 | the meaning of two strings joined is the meaning of the first followed by that of the second, so merging constants keeps the meaning |
| Patterns.PushOrMerge | turbopack/crates/turbopack-core/src/resolve/pattern.rs:42-52 | pushing onto a concatenation's list adds at most one item (a constant after a constant is merged) |
| Patterns.PushFrontOrMerge | turbopack/crates/turbopack-core/src/resolve/pattern.rs:54-67 | pushing to the front of a concatenation's list adds at most one item (a constant before a constant is merged) |
| Patterns.PushOrMergeTokens | turbopack/crates/turbopack-core/src/resolve/pattern.rs:42-52 | pushing or merging onto a list means the list followed by the pushed pattern |
| Patterns.PushFrontOrMergeTokens | turbopack/crates/turbopack-core/src/resolve/pattern.rs:54-67 | pushing or merging to the front means the pushed pattern followed by the list |
| Patterns.ExtendOrMergeTokens | turbopack/crates/turbopack-core/src/resolve/pattern.rs:69-77 | extending a list (only the first item may merge) means the list followed by the items |
| Patterns.PushConstantRules | turbopack/crates/turbopack-core/src/resolve/pattern.rs:397-432 | pushing a constant onto a constant concatenates the strings, pushing onto the empty constant gives the pushed pattern, and pushing the empty constant leaves the pattern unchanged |
| Patterns.PushTokens | turbopack/crates/turbopack-core/src/resolve/pattern.rs:397-433 | for patterns without alternatives, `push` means the first pattern followed by the second, whichever branch applies |
| Patterns.PushFrontTokens | turbopack/crates/turbopack-core/src/resolve/pattern.rs:435-458 | for patterns without alternatives, `push_front` means the prepended pattern followed by the first, whichever branch applies |
| Patterns.PushAllTokens | turbopack/crates/turbopack-core/src/resolve/pattern.rs:472-479 | the loop of `concat` that pushes every remaining item means the first pattern followed by all the items in order |
| Patterns.ConcatTokens | turbopack/crates/turbopack-core/src/resolve/pattern.rs:472-479 | `concat` of a non-empty list means the items in order; the empty list gives the default pattern, `Dynamic` |
| Patterns.AlternativesOf | turbopack/crates/turbopack-core/src/resolve/pattern.rs:460-470 | `alternatives` always builds an alternatives pattern |
| Patterns.AlternativesOfMembers | turbopack/crates/turbopack-core/src/resolve/pattern.rs:460-470 | a pattern is an alternative of the result iff it is a given pattern that is not alternatives, or an alternative of a given one that is: nested alternatives are spliced one level, nothing is lost or added |
| Patterns.AddPartFlat | turbopack/crates/turbopack-core/src/resolve/pattern.rs:688-724 | `add_part` keeps the new parts flat: only non-empty constants and dynamic parts, no two constants in a row, no `Dynamic` after a dynamic part, no `DynamicNoSlash` after a `DynamicNoSlash` |
| Patterns.AddPartsFlat | turbopack/crates/turbopack-core/src/resolve/pattern.rs:686-728 | folding `add_part` over the parts keeps the list flat |
| Patterns.AddPartsSnoc | turbopack/crates/turbopack-core/src/resolve/pattern.rs:686-728 | adding one more part after a list of parts is one more `add_part` step |
| Patterns.AbsorbTokensAppend | turbopack/crates/turbopack-core/src/resolve/pattern.rs:702-717 | dropping absorbed dynamic parts over two token lists is dropping them over the first and then continuing with the second |
| Patterns.AbsorbChars | turbopack/crates/turbopack-core/src/resolve/pattern.rs:690-701 | constants are never absorbed: their characters are appended unchanged |
| Patterns.FlatListTokensLast | turbopack/crates/turbopack-core/src/resolve/pattern.rs:702-717 | the last token of a flat list's meaning is a character, `Any` or `AnyNoSlash` exactly as its last part is a constant, `Dynamic` or `DynamicNoSlash` |
| Patterns.AddConstantTokens | turbopack/crates/turbopack-core/src/resolve/pattern.rs:690-701 | adding a constant (empty, merged into a last constant, or appended) appends its characters to the list's meaning |
| Patterns.MergedConstantTokens | turbopack/crates/turbopack-core/src/resolve/pattern.rs:690-701 | merging a constant into the last constant appends its characters to the meaning |
| Patterns.TokensListCons | turbopack/crates/turbopack-core/src/resolve/pattern.rs:22-29 | the meaning of a list with a first part is that part's meaning followed by the rest's |
| Patterns.TokensSingle | turbopack/crates/turbopack-core/src/resolve/pattern.rs:22-29 | a one-part list means that part |
| Patterns.AddDynamicTokens | turbopack/crates/turbopack-core/src/resolve/pattern.rs:702-717 | adding `Dynamic` after a dynamic part, or `DynamicNoSlash` after a `DynamicNoSlash`, is absorbed; otherwise the placeholder is appended |
| Patterns.AddPartTokens | turbopack/crates/turbopack-core/src/resolve/pattern.rs:688-724 | `add_part` keeps the meaning of the list followed by the part, except that a dynamic part absorbs a following `Dynamic` and a `DynamicNoSlash` a following `DynamicNoSlash` |
| Patterns.AddPartsTokens | turbopack/crates/turbopack-core/src/resolve/pattern.rs:686-728 | the `add_part` fold means the parts' concatenation up to those absorptions |
| Patterns.NormalizeConcatenationParts | turbopack/crates/turbopack-core/src/resolve/pattern.rs:686-728 | the loop over the drained parts builds exactly the `add_part` fold; the result is flat and means the parts up to absorbed dynamic parts |
| Patterns.NormalizeAltFree | turbopack/crates/turbopack-core/src/resolve/pattern.rs:592-596 | `normalize` of a pattern without alternatives gives a constant, a dynamic part or a flat concatenation, still without alternatives |
| Patterns.NormalizeEachAltFree | turbopack/crates/turbopack-core/src/resolve/pattern.rs:631-636 | every part is normalised, in place and in order |
| Patterns.NormalizeAltFreeTokens | turbopack/crates/turbopack-core/src/resolve/pattern.rs:630-737 | normalising a pattern without alternatives keeps its meaning, up to a dynamic part absorbing a following one |
| Patterns.NormalizeEachTokens | turbopack/crates/turbopack-core/src/resolve/pattern.rs:631-636 | normalising the parts first and then folding them with `add_part` means the same as folding the original parts |
| Patterns.AbsorbLast | turbopack/crates/turbopack-core/src/resolve/pattern.rs:702-717 | after absorbing, the last token still absorbs whatever the last absorbed token would |
| Patterns.AbsorbAssociative | turbopack/crates/turbopack-core/src/resolve/pattern.rs:702-717 | absorbing in two stages is absorbing in one, so normalising nested concatenations is consistent |
| Patterns.AbsorbIdempotent | turbopack/crates/turbopack-core/src/resolve/pattern.rs:702-717 | absorbing an already absorbed token list changes nothing more: normalising twice is normalising once, for the meaning |
| Patterns.Normalize | turbopack/crates/turbopack-core/src/resolve/pattern.rs:592-737 | `normalize` yields a pattern without alternatives or alternatives of patterns without alternatives, and on a pattern without alternatives it is the concatenation normalisation |
| Patterns.NormalizeConcatenation | turbopack/crates/turbopack-core/src/resolve/pattern.rs:630-737 | the concatenation branch yields the normal form whether or not some part has alternatives |
| Patterns.NormalizeEach | turbopack/crates/turbopack-core/src/resolve/pattern.rs:598-600 | every child is normalised, in order, and each is in normal form |
| Patterns.Pieces | turbopack/crates/turbopack-core/src/resolve/pattern.rs:649-653 | the parts a concatenation contributes are its own parts, another pattern contributes itself; none has alternatives |
| Patterns.AppendToEach | turbopack/crates/turbopack-core/src/resolve/pattern.rs:658-667 | a part without alternatives is appended to every concatenation built so far, in order |
| Patterns.Combine | turbopack/crates/turbopack-core/src/resolve/pattern.rs:644-657 | a part with `k` alternatives multiplies the concatenations built so far by `k` |
| Patterns.CombineAltFree | turbopack/crates/turbopack-core/src/resolve/pattern.rs:644-657 | combining with a part's alternatives builds only concatenations without alternatives |
| Patterns.NoAlternativesAltFree | turbopack/crates/turbopack-core/src/resolve/pattern.rs:631-637 | when no normalised part is alternatives, every part is free of alternatives |
| Patterns.DistributeAltFree | turbopack/crates/turbopack-core/src/resolve/pattern.rs:638-668 | every concatenation built by distribution is free of alternatives |
| Patterns.DistributeCount | turbopack/crates/turbopack-core/src/resolve/pattern.rs:638-668 | distribution builds one concatenation per choice of one alternative of every part |
| Patterns.DistributeShape | turbopack/crates/turbopack-core/src/resolve/pattern.rs:638-668 | distribution's count and freedom from alternatives together |
| Patterns.CollapseEach | turbopack/crates/turbopack-core/src/resolve/pattern.rs:671-683 | each built concatenation becomes one alternative (a single part stands for itself), none with alternatives |
| Patterns.FinishAlternatives | turbopack/crates/turbopack-core/src/resolve/pattern.rs:597-628 | the alternatives branch yields the normal form |
| Patterns.FlattenNormalForms | turbopack/crates/turbopack-core/src/resolve/pattern.rs:603-622 | splicing normalised alternatives yields patterns without alternatives |
| Patterns.KeepFirstDynamic | turbopack/crates/turbopack-core/src/resolve/pattern.rs:601-623 | deduplicating `Dynamic` alternatives only keeps given alternatives |
| Patterns.KeepFirstDynamicSpec | turbopack/crates/turbopack-core/src/resolve/pattern.rs:601-623 | deduplication keeps every alternative other than `Dynamic` in order, keeps one `Dynamic` if there was one and none was kept before, and never keeps two |
| Patterns.WithoutDynamicAppend | turbopack/crates/turbopack-core/src/resolve/pattern.rs:601-623 | removing `Dynamic` from two lists joined is removing it from each |
| Patterns.NormalizedAlternatives | turbopack/crates/turbopack-core/src/resolve/pattern.rs:597-628 | a normalised alternatives pattern has no nested alternatives, at most one `Dynamic` alternative and never exactly one alternative |
| Patterns.Tokens | turbopack/crates/turbopack-core/src/resolve/pattern.rs:22-29 | the meaning of a pattern without alternatives as a sequence of literal characters and dynamic placeholders; `TokensListAppend`, `PushTokens` and `NormalizeAltFreeTokens` state how the operations keep it |
| Patterns.ExtendOrMerge | turbopack/crates/turbopack-core/src/resolve/pattern.rs:69-77 | `concatenation_extend_or_merge_items`: only the first appended item may merge with the last one; `ExtendOrMergeTokens` proves the meaning is the concatenation of both |
| Patterns.Push | turbopack/crates/turbopack-core/src/resolve/pattern.rs:397-433 | `Pattern::push`: appends a pattern, merging constants and flattening concatenations; `PushTokens` proves the meaning is that of `self` followed by that of `pat`, `PushConstantRules` the empty-constant rules |
| Patterns.PushFront | turbopack/crates/turbopack-core/src/resolve/pattern.rs:435-458 | `Pattern::push_front`: prepends a pattern; `PushFrontTokens` proves the meaning is that of `pat` followed by that of `self` |
| Patterns.PushAll | turbopack/crates/turbopack-core/src/resolve/pattern.rs:472-479 | the fold of `push` inside `Pattern::concat`; `PushAllTokens` proves the meaning is the concatenation of all items' meanings |
| Patterns.Concat | turbopack/crates/turbopack-core/src/resolve/pattern.rs:472-479 | `Pattern::concat`: the concatenation of the items (the default pattern when there are none); `ConcatTokens` proves its meaning is the items' meanings in order |
| Patterns.FlattenAlternatives | turbopack/crates/turbopack-core/src/resolve/pattern.rs:460-470 | `Pattern::alternatives` splices nested alternatives into one list; `AlternativesOfMembers` and `FlattenNormalForms` prove every member is an input or one of its alternatives, and normal forms stay normal |
| Patterns.AddPart | turbopack/crates/turbopack-core/src/resolve/pattern.rs:688-724 | `add_part` of `normalize`: merges a constant into a preceding constant, drops empty constants, lets a dynamic part absorb the next one and flattens concatenations; `AddPartFlat` and `AddPartTokens` prove the list stays flat and keeps its meaning up to absorption |
| Patterns.AddParts | turbopack/crates/turbopack-core/src/resolve/pattern.rs:686-728 | the loop of `add_part` over a concatenation's parts; `AddPartsFlat`, `AddPartsSnoc` and `AddPartsTokens` prove the result is flat and means the same up to absorption |
| Patterns.CollapseConcatenation | turbopack/crates/turbopack-core/src/resolve/pattern.rs:729-733 | a normalised concatenation of one part collapses to that part; `NormalizeAltFree` states the shapes it produces |
| Patterns.NormalForm | turbopack/crates/turbopack-core/src/resolve/pattern.rs:592-737 | the shape `normalize` produces: no alternatives, or alternatives of patterns without alternatives; `Normalize` proves every result has it |
| Patterns.Distribute | turbopack/crates/turbopack-core/src/resolve/pattern.rs:642-668 | the distribution of a concatenation over the alternatives of its parts; `DistributeAltFree`, `DistributeCount` and `DistributeShape` prove each combination is alternative-free and there is one per choice of alternatives |
| Patterns.WithoutDynamic | turbopack/crates/turbopack-core/src/resolve/pattern.rs:603-623 | the alternatives without `Dynamic`; `KeepFirstDynamicSpec` and `WithoutDynamicAppend` prove the deduplication keeps one `Dynamic` (the first) and every other alternative in order |
| Patterns.AbsorbToken | turbopack/crates/turbopack-core/src/resolve/pattern.rs:702-717 | the merge `normalize` does for one more part: a dynamic part absorbs a following `Dynamic`, a no-slash part a following no-slash part, characters are appended; AbsorbTokensAppend states it composes over lists |
| PatternStrip.StripPrefixPartTokens | turbopack/crates/turbopack-core/src/resolve/pattern.rs:241-267 | stripping a prefix from one part succeeds iff no dynamic placeholder lies among the characters to strip; the rest means the remaining characters, and the count left is what the part could not supply |
| PatternStrip.StripPrefixListTokens | turbopack/crates/turbopack-core/src/resolve/pattern.rs:252-258 | the loop over a concatenation's parts (visiting a part only while characters remain) succeeds iff no placeholder lies among the characters to strip, and leaves the remaining characters |
| PatternStrip.PrefixWithinHead | turbopack/crates/turbopack-core/src/resolve/pattern.rs:252-258 | stripping fewer characters than the first part holds touches only that part |
| PatternStrip.PrefixPastHead | turbopack/crates/turbopack-core/src/resolve/pattern.rs:243-251 | stripping at least the whole first part empties it and leaves the rest of the count to the following parts |
| PatternStrip.PrefixBlockedInHead | turbopack/crates/turbopack-core/src/resolve/pattern.rs:262-264 | a placeholder among the first part's characters to strip makes the whole concatenation fail |
| PatternStrip.StripPrefixLenTokens | turbopack/crates/turbopack-core/src/resolve/pattern.rs:240-294 | for a pattern without alternatives, `strip_prefix_len` fails iff a dynamic placeholder lies within the first `n` characters, else the result means the characters after them, normalised |
| PatternStrip.StripPrefixEachOk | turbopack/crates/turbopack-core/src/resolve/pattern.rs:274-279 | every alternative is stripped on its own, starting from the full count: the whole succeeds iff each alternative can be stripped, and keeps their number |
| PatternStrip.StripPrefixEachZero | turbopack/crates/turbopack-core/src/resolve/pattern.rs:274-279 | with the corrected rule, stripping nothing leaves every alternative untouched |
| PatternStrip.StripPrefixZeroAsWritten | turbopack/crates/turbopack-core/src/resolve/pattern.rs:274-279 | as written, stripping nothing fails on alternatives with a bare dynamic alternative, although it succeeds on a bare dynamic pattern |
| PatternStrip.StripPrefixZero | turbopack/crates/turbopack-core/src/resolve/pattern.rs:240-294 | with the corrected rule, stripping nothing never fails and only normalises |
| PatternStrip.StripSuffixPartTokens | turbopack/crates/turbopack-core/src/resolve/pattern.rs:297-322 | stripping a suffix from one part is allowed iff no dynamic placeholder lies among the last characters to strip; the rest means the characters before them |
| PatternStrip.CharsAfterShort | turbopack/crates/turbopack-core/src/resolve/pattern.rs:308-313 | a suffix that lies within the last part depends only on that part |
| PatternStrip.CharsAfterLong | turbopack/crates/turbopack-core/src/resolve/pattern.rs:308-313 | a suffix that covers the whole last part continues into the parts before it |
| PatternStrip.StripSuffixListTokens | turbopack/crates/turbopack-core/src/resolve/pattern.rs:308-313 | the loop over a concatenation's parts, last part first and only while characters remain, is allowed iff no placeholder lies among the characters to strip, and leaves the characters before them |
| PatternStrip.StripSuffixLenTokens | turbopack/crates/turbopack-core/src/resolve/pattern.rs:296-343 | for a pattern without alternatives, `strip_suffix_len` may be called (does not panic) iff no dynamic placeholder lies within the last `n` characters, and the result means the characters before them, normalised |
| PatternStrip.StripPrefixPart | turbopack/crates/turbopack-core/src/resolve/pattern.rs:241-267 | `strip_prefix_internal`: strips up to `n` characters from the start, failing on a dynamic part; `StripPrefixPartTokens` proves the meaning loses exactly its first characters |
| PatternStrip.StripPrefixList | turbopack/crates/turbopack-core/src/resolve/pattern.rs:252-266 | the loop over a concatenation's parts while characters remain; `StripPrefixListTokens` proves the same for a list |
| PatternStrip.StripPrefixLenAsWritten | turbopack/crates/turbopack-core/src/resolve/pattern.rs:240-294 | `strip_prefix_len` as written; `StripPrefixZeroAsWritten` shows stripping nothing fails on a bare dynamic alternative |
| PatternStrip.StripPrefixLen | turbopack/crates/turbopack-core/src/resolve/pattern.rs:240-294 | `strip_prefix_len` with alternatives treated like the top level; `StripPrefixLenTokens` proves each alternative loses exactly its first `n` characters and `StripPrefixZero` that stripping nothing changes nothing |
| PatternStrip.StripPrefixEach | turbopack/crates/turbopack-core/src/resolve/pattern.rs:274-279 | stripping every alternative afresh; `StripPrefixEachOk` and `StripPrefixEachZero` state when it succeeds and that `n` = 0 keeps them |
| PatternStrip.StripSuffixPart | turbopack/crates/turbopack-core/src/resolve/pattern.rs:297-327 | `strip_suffix_internal`: strips up to `n` characters from the end; `StripSuffixPartTokens` proves the meaning loses exactly its last characters |
| PatternStrip.StripSuffixList | turbopack/crates/turbopack-core/src/resolve/pattern.rs:308-314 | the loop over a concatenation's parts from the last; `StripSuffixListTokens` proves the same for a list |
| PatternStrip.CanStripSuffix | turbopack/crates/turbopack-core/src/resolve/pattern.rs:296-343 | what `strip_suffix_len` needs to avoid a panic: no dynamic part or nested alternative within the stripped characters; used by `StripSuffixLenTokens` |
| PatternStrip.StripSuffixLen | turbopack/crates/turbopack-core/src/resolve/pattern.rs:296-343 | `strip_suffix_len`; `StripSuffixLenTokens` proves each alternative loses exactly its last `n` characters |
| PatternStrip.StripSuffixEachSome | turbopack/crates/turbopack-core/src/resolve/pattern.rs:329-334 | every alternative is stripped from its end on its own, starting from the full count: the whole succeeds iff nothing is stripped or each alternative can be stripped, and keeps their number |
| PatternStrip.StripSuffixEach | turbopack/crates/turbopack-core/src/resolve/pattern.rs:329-334 | stripping every alternative afresh; StripSuffixEachSome states when it succeeds and that it keeps the number of alternatives |
| PatternPath.NormalizeSegments | turbopack/crates/turbopack-core/src/resolve/pattern.rs:498-501 | the segment walk of `normalize_path` (empty and "." skipped, ".." removing the previous segment and failing at the root) leaves only clean segments |
| PatternPath.NormalizeCleanSegments | turbopack/crates/turbopack-core/src/resolve/pattern.rs:498-501 | a walk over clean segments keeps every one of them, in order |
| PatternPath.SplitJoin | turbopack/crates/turbopack-core/src/resolve/pattern.rs:509 | splitting pieces joined by a separator none of them contains gives the pieces back |
| PatternPath.NormalizePathIdempotent | turbopack/crates/turbopack-core/src/resolve/pattern.rs:498-501 | normalising a constant's path twice gives the same as once |
| PatternPath.ElementPatterns | turbopack/crates/turbopack-core/src/resolve/pattern.rs:558-565 | the rebuilt concatenation has one part per element: a segment's pattern, or the constant "/" for a separator |
| PatternPath.NormalizePathEach | turbopack/crates/turbopack-core/src/resolve/pattern.rs:578-582 | normalising every alternative succeeds only as a whole and keeps their number |
| PatternPath.ConcatenationElements | turbopack/crates/turbopack-core/src/resolve/pattern.rs:504-557 | the loop over a concatenation's parts, with the inner walk over each constant's "/"-separated pieces, computes exactly the recursive element walk, as written or corrected |
| PatternPath.ConstantPieces | turbopack/crates/turbopack-core/src/resolve/pattern.rs:509-548 | the inner walk over one constant's pieces computes exactly the recursive piece walk |
| PatternPath.DotDotsAppend | turbopack/crates/turbopack-core/src/resolve/pattern.rs:516-536 | appending an element adds one ".." exactly when it is a ".." segment |
| PatternPath.DotDotsWithSeparator | turbopack/crates/turbopack-core/src/resolve/pattern.rs:544-547 | adding a separator never removes a ".." segment |
| PatternPath.PieceKeepsDotDots | turbopack/crates/turbopack-core/src/resolve/pattern.rs:516-536 | under the corrected rule a piece never removes a ".." segment |
| PatternPath.PiecesKeepDotDots | turbopack/crates/turbopack-core/src/resolve/pattern.rs:509-548 | under the corrected rule the pieces of a constant never remove a ".." segment |
| PatternPath.ElementsKeepDotDots | turbopack/crates/turbopack-core/src/resolve/pattern.rs:504-557 | over a whole concatenation the corrected walk never removes a ".." segment: ".." only cancels a whole segment that is not ".." |
| PatternPath.PieceResolves | turbopack/crates/turbopack-core/src/resolve/pattern.rs:516-536 | under the corrected rule a piece leaves no `constant/..` pair unresolved |
| PatternPath.PiecesResolve | turbopack/crates/turbopack-core/src/resolve/pattern.rs:509-548 | under the corrected rule a constant's pieces leave no `constant/..` pair unresolved |
| PatternPath.ElementsResolve | turbopack/crates/turbopack-core/src/resolve/pattern.rs:504-557 | the corrected walk over a concatenation leaves no `constant/..` pair unresolved |
| PatternPath.LeavingRoot | turbopack/crates/turbopack-core/src/resolve/pattern.rs:516-520 | ".." at the start of a concatenation leaves the root and gives None |
| PatternPath.LostSeparatorAsWritten | turbopack/crates/turbopack-core/src/resolve/pattern.rs:512-515 | as written, the constant "/x" after a dynamic part loses its "/": `src/`·Dynamic·`/x` becomes src, "/", Dynamic, x |
| PatternPath.LostSeparatorCorrected | turbopack/crates/turbopack-core/src/resolve/pattern.rs:504-557 | the corrected rule keeps the "/": the empty piece ends the dynamic part's segment before the separator |
| PatternPath.SplitSrc | turbopack/crates/turbopack-core/src/resolve/pattern.rs:509 | "src/" splits into "src" and "", and "/x" into "" and "x" |
| PatternPath.SplitSrcDir | turbopack/crates/turbopack-core/src/resolve/pattern.rs:509 | "src/" splits into "src" and "" |
| PatternPath.SplitIndex | turbopack/crates/turbopack-core/src/resolve/pattern.rs:509 | "/x" splits into "" and "x" |
| PatternPath.SplitDotDots | turbopack/crates/turbopack-core/src/resolve/pattern.rs:509 | "../.." splits into ".." and ".." |
| PatternPath.DotDotCancelsDotDotAsWritten | turbopack/crates/turbopack-core/src/resolve/pattern.rs:522-530 | as written, the second ".." after a dynamic part removes the first (a constant ".." counts as a segment to cancel), so Dynamic·"../.." loses a ".." |
| PatternPath.DotDotPiecesAsWritten | turbopack/crates/turbopack-core/src/resolve/pattern.rs:516-536 | as written, the pieces "..", ".." after a dynamic segment leave only the dynamic segment |
| PatternPath.DotDotCancelsDotDotCorrected | turbopack/crates/turbopack-core/src/resolve/pattern.rs:504-557 | the corrected rule keeps both ".." segments of Dynamic·"../.." |
| PatternPath.SplitLastSegment | turbopack/crates/turbopack-core/src/resolve/pattern.rs:1889-1908 | `split_last_segment` gives a parent and a last segment that come from the path (the parent is a prefix and the two joined by "/" are too), and the last segment is never "." or "..", and contains no "/" |
| PatternPath.SplitBelowPrefix | turbopack/crates/turbopack-core/src/resolve/pattern.rs:1889-1908 | a split of a prefix of a path is a split of the path |
| PatternPath.SplitLastSegmentPlain | turbopack/crates/turbopack-core/src/resolve/pattern.rs:1898 | a last segment that is neither empty, "." nor ".." is split off as is |
| PatternPath.SplitLastSegmentSkip | turbopack/crates/turbopack-core/src/resolve/pattern.rs:1892-1893 | an empty or "." last segment is skipped |
| PatternPath.SplitLastSegmentDotDot | turbopack/crates/turbopack-core/src/resolve/pattern.rs:1894-1897 | a trailing ".." steps over the last segment of the parent, and when that is unknown the whole path is the parent with an empty last segment |
| PatternPath.SplitLastSegmentPlainExamples | turbopack/crates/turbopack-core/src/resolve/pattern.rs:2631-2646 | "a" gives ("", "a"), ".." gives ("..", "") and "a/b" gives ("a", "b") |
| PatternPath.SplitLastSegmentTrailingExample | turbopack/crates/turbopack-core/src/resolve/pattern.rs:2635 | "a/b/" gives ("a", "b") |
| PatternPath.SplitLastSegmentDotDotExample | turbopack/crates/turbopack-core/src/resolve/pattern.rs:2638 | "a/b/.." gives ("", "a") |
| PatternPath.SplitLastSegmentLeavingExample | turbopack/crates/turbopack-core/src/resolve/pattern.rs:2654 | "a/../.." gives ("a/../..", "") |
| PatternPath.NormalizePath | turbopack/crates/turbopack-core/src/resolve/pattern.rs:498-501 | `normalize_path`: the clean segments joined by "/", none when ".." leaves the root; `NormalizePathIdempotent` proves normalising twice is normalising once |
| PatternPath.Piece | turbopack/crates/turbopack-core/src/resolve/pattern.rs:516-536 | the corrected rule for one "/"-separated piece: "" and "." skipped, ".." removes only a whole preceding segment; `PieceKeepsDotDots` and `PieceResolves` state it |
| PatternPath.PieceAsWritten | turbopack/crates/turbopack-core/src/resolve/pattern.rs:516-536 | the piece rule as written, where ".." removes any preceding `constant/`; `DotDotPiecesAsWritten` shows a ".." it loses |
| PatternPath.Pieces | turbopack/crates/turbopack-core/src/resolve/pattern.rs:509-548 | the walk over a constant's pieces; `ConstantPieces` proves the source's loop computes it, `PiecesKeepDotDots` and `PiecesResolve` what it keeps |
| PatternPath.Elements | turbopack/crates/turbopack-core/src/resolve/pattern.rs:504-557 | the walk over a concatenation's parts; `ConcatenationElements` proves the source's loop computes it, `ElementsKeepDotDots`, `ElementsResolve` and `LeavingRoot` what it keeps and when it fails |
| PatternPath.NormalizePathPart | turbopack/crates/turbopack-core/src/resolve/pattern.rs:496-576 | `normalize_path_internal` on one alternative; `ConstantPathNormalized` states it on constants and `ConcatenationElements` on concatenations |
| PatternPath.WithNormalizedPathImpl | turbopack/crates/turbopack-core/src/resolve/pattern.rs:487-590 | `with_normalized_path`: a normalised pattern after normalising every alternative's path, none when one leaves the root |
| PatternPath.WithNormalizedPathAsWritten | turbopack/crates/turbopack-core/src/resolve/pattern.rs:487-590 | `with_normalized_path` as written; `LostSeparatorAsWritten` and `DotDotCancelsDotDotAsWritten` show what it gets wrong |
| PatternPath.WithNormalizedPath | turbopack/crates/turbopack-core/src/resolve/pattern.rs:487-590 | `with_normalized_path` with the corrected piece rule; `ConstantPathNormalized`, `LeavingRootConstant`, `DotDotConstant` and `TrailingSlashConstant` state it on constants |
| PatternPath.ConstantPathNormalized | turbopack/crates/turbopack-core/src/resolve/pattern.rs:496-503 | on a constant both forms agree: the normalised path with back-slashes read as "/", none exactly when ".." leaves the root |
| PatternPath.PlainConstantPath | turbopack/crates/turbopack-core/src/resolve/pattern.rs:496-503 | a constant without back-slashes is normalised as it stands |
| PatternPath.LeavingRootConstant | turbopack/crates/turbopack-core/src/resolve/pattern.rs:2012-2016 | `a/../..` (any clean segment `a`) normalises to nothing |
| PatternPath.LeavingRootPath | turbopack/crates/turbopack-core/src/resolve/pattern.rs:498-501 | `normalize_path` of `a/../..` fails |
| PatternPath.DotDotConstant | turbopack/crates/turbopack-core/src/resolve/pattern.rs:2017-2022 | `a/b/../c` (any clean segments) normalises to the constant `a/c` |
| PatternPath.DotDotPath | turbopack/crates/turbopack-core/src/resolve/pattern.rs:498-501 | `normalize_path` of `a/b/../c` is `a/c` |
| PatternPath.DotDotSegments | turbopack/crates/turbopack-core/src/resolve/pattern.rs:498-501 | the segment walk over `a`, `b`, "..", `c` keeps `a` and `c` |
| PatternPath.TrailingSlashConstant | turbopack/crates/turbopack-core/src/resolve/pattern.rs:2035-2040 | `a/b/` normalises to the constant `a/b` |
| PatternPath.TrailingSlashPath | turbopack/crates/turbopack-core/src/resolve/pattern.rs:498-501 | `normalize_path` of `a/b/` is `a/b` |
| PatternPath.SplitPieces3 | turbopack/crates/turbopack-core/src/resolve/pattern.rs:509 | three pieces without "/" joined by "/" split back into themselves |
| PatternPath.SplitPieces | turbopack/crates/turbopack-core/src/resolve/pattern.rs:509 | four pieces without "/" joined by "/" split back into themselves |
| PatternPath.WithSeparator | turbopack/crates/turbopack-core/src/resolve/pattern.rs:544-547 | a separator follows a piece unless it is the last one; DotDotsWithSeparator states adding it never lowers the count of ".." segments |
| PatternAffix.CommonPrefixCount | turbopack/crates/turbopack-core/src/resolve/pattern.rs:92-95 | the count of agreeing leading characters: both strings agree up to it, and there one string ends or they differ |
| PatternAffix.PrefixLen | turbopack/crates/turbopack-core/src/resolve/pattern.rs:87-97 | the length kept by the loop never exceeds the first string's |
| PatternAffix.LongestCommonPrefixOf | turbopack/crates/turbopack-core/src/resolve/pattern.rs:79-99 | the result is no longer than the first input |
| PatternAffix.LongestCommonPrefix | turbopack/crates/turbopack-core/src/resolve/pattern.rs:79-99 | the loop of `longest_common_prefix` returns exactly the recursive definition, including the empty and single-input cases |
| PatternAffix.PrefixLenCommon | turbopack/crates/turbopack-core/src/resolve/pattern.rs:87-97 | every input after the first agrees with the first on the kept length |
| PatternAffix.PrefixLenReached | turbopack/crates/turbopack-core/src/resolve/pattern.rs:87-97 | the kept length is the whole first string, or equals the agreement count of some input with the first |
| PatternAffix.LongestCommonPrefixIsCommon | turbopack/crates/turbopack-core/src/resolve/pattern.rs:79-99 | no input gives "", one input gives that input, and the result is a prefix of every input |
| PatternAffix.LongestCommonPrefixIsLongest | turbopack/crates/turbopack-core/src/resolve/pattern.rs:79-99 | the result cannot be extended: it is the whole first input, or some input ends there or differs at the next character |
| PatternAffix.Reverse | turbopack/crates/turbopack-core/src/resolve/pattern.rs:112-114 | reversal puts the characters in the opposite order |
| PatternAffix.ReverseAll | turbopack/crates/turbopack-core/src/resolve/pattern.rs:112-114 | every input is reversed, in order |
| PatternAffix.ReversePrefix | turbopack/crates/turbopack-core/src/resolve/pattern.rs:112-114 | the first `n` characters of a reversed string are the reversal of its last `n` |
| PatternAffix.ReverseInjective | turbopack/crates/turbopack-core/src/resolve/pattern.rs:112-114 | two strings with the same reversal are equal |
| PatternAffix.CommonSuffixCount | turbopack/crates/turbopack-core/src/resolve/pattern.rs:111-115 | the count of agreeing trailing characters is no longer than either string |
| PatternAffix.SuffixLen | turbopack/crates/turbopack-core/src/resolve/pattern.rs:107-117 | the length kept by the suffix loop never exceeds the first string's |
| PatternAffix.SuffixLenIsPrefixLen | turbopack/crates/turbopack-core/src/resolve/pattern.rs:101-119 | the suffix loop keeps the length the prefix loop keeps on the reversed strings |
| PatternAffix.LongestCommonSuffixOf | turbopack/crates/turbopack-core/src/resolve/pattern.rs:101-119 | the result is no longer than the first input |
| PatternAffix.LongestCommonSuffix | turbopack/crates/turbopack-core/src/resolve/pattern.rs:101-119 | the loop of `longest_common_suffix` returns exactly the recursive definition |
| PatternAffix.SuffixLenCommon | turbopack/crates/turbopack-core/src/resolve/pattern.rs:107-117 | every input after the first ends with the kept suffix of the first |
| PatternAffix.LongestCommonSuffixIsCommon | turbopack/crates/turbopack-core/src/resolve/pattern.rs:101-119 | no input gives "", one input gives that input (without the special case the prefix has), and the result is a suffix of every input |
| PatternAffix.SuffixLenReached | turbopack/crates/turbopack-core/src/resolve/pattern.rs:107-117 | the kept length is the whole first string, or some input ends there or differs from the first just before it |
| PatternAffix.LongestCommonSuffixIsLongest | turbopack/crates/turbopack-core/src/resolve/pattern.rs:101-119 | the result cannot be extended to the left: it is the whole first input, or some input ends there or differs at the next character to the left |
| PatternAffix.LongestCommonPrefixExample | turbopack/crates/turbopack-core/src/resolve/pattern.rs:1928 | a shorter middle input bounds the result: `["abc", "a", "abc"]` gives "a" |
| PatternMatch.FindForbiddenFrom | turbopack/crates/turbopack-core/src/resolve/pattern.rs:947-949 | the search from `i` finds the first position at or after `i` where the forbidden-segment expression matches, or says there is none |
| PatternMatch.FindForbidden | turbopack/crates/turbopack-core/src/resolve/pattern.rs:947-949 | `FORBIDDEN.find` gives the start of the leftmost match of the forbidden-segment expression (a "/" or the start, then "ROOT", ".", "/", or "node_modules", "__tests__" or "__test__" ending a segment), and none iff it matches nowhere |
| PatternMatch.DynamicExtent | turbopack/crates/turbopack-core/src/resolve/pattern.rs:966-970 | a dynamic part extends at most over the whole value (up to the first "/" for `DynamicNoSlash`) |
| PatternMatch.MatchPattern | turbopack/crates/turbopack-core/src/resolve/pattern.rs:909-1006 | the loop of `match_internal` (constant, dynamic and concatenation branches, stopping at the first part that does not consume) computes exactly the recursive definition |
| PatternMatch.FirstMatch | turbopack/crates/turbopack-core/src/resolve/pattern.rs:846-851 | the position of the first alternative whose match is a full match: that one matches, none before it does, and none when no alternative matches |
| PatternMatch.MatchPosition | turbopack/crates/turbopack-core/src/resolve/pattern.rs:846-858 | `match_position` is some iff `is_match` holds; it is 0 for a pattern without alternatives, else the first alternative that matches |
| PatternMatch.ConstantIsMatch | turbopack/crates/turbopack-core/src/resolve/pattern.rs:917-943 | a constant matches exactly itself |
| PatternMatch.ConstantCouldMatch | turbopack/crates/turbopack-core/src/resolve/pattern.rs:917-943 | a constant could match exactly the prefixes of itself |
| PatternMatch.DynamicIsMatch | turbopack/crates/turbopack-core/src/resolve/pattern.rs:946-973 | a bare `Dynamic` matches a value iff no forbidden segment occurs in it and it does not end in ".d.ts" or ".map" |
| PatternMatch.DynamicNoSlashIsMatch | turbopack/crates/turbopack-core/src/resolve/pattern.rs:946-973 | a bare `DynamicNoSlash` additionally never spans a "/" |
| PatternMatch.DynamicCouldMatch | turbopack/crates/turbopack-core/src/resolve/pattern.rs:946-973 | a dynamic part could match the start of any value without forbidden segments, including one ending in ".d.ts" or ".map" |
| PatternMatch.ForbiddenSegmentStopsDynamic | turbopack/crates/turbopack-core/src/resolve/pattern.rs:946-973 | a forbidden segment at the start of the value or after a "/" stops both kinds of dynamic part: neither matches nor could match such a value |
| PatternMatch.ForbiddenSegments | turbopack/crates/turbopack-core/src/resolve/pattern.rs:947-949 | ".", "/", "ROOT", "node_modules", "__tests__" and "__test__" (alone or followed by "/") are forbidden segments |
| PatternMatch.NodeModulesStopsDynamic | turbopack/crates/turbopack-core/src/resolve/pattern.rs:952-955 | after a constant ending in "node_modules/", no dynamic part matches or could match anything: a pattern never enumerates the packages of a folder |
| PatternMatch.ConstantHead | turbopack/crates/turbopack-core/src/resolve/pattern.rs:934-939 | a constant at the head of a concatenation consumes its own text and the rest continues on the rest of the value, with the node_modules state of the constant |
| PatternMatch.ConstantThenDynamic | turbopack/crates/turbopack-core/src/resolve/pattern.rs:909-1006 | a constant followed by `Dynamic` matches the constant followed by exactly the values `Dynamic` matches alone, when the constant does not end in a node_modules folder |
| PatternMatch.MatchCollect | turbopack/crates/turbopack-core/src/resolve/pattern.rs:1008-1110 | `match_collect_internal` returns the same match result as `match_internal` and only appends to the collected texts |
| PatternMatch.MatchCollectList | turbopack/crates/turbopack-core/src/resolve/pattern.rs:1081-1108 | the concatenation loop of `match_collect_internal` returns the same result as that of `match_internal` and only appends to the collected texts |
| PatternMatch.FillList | turbopack/crates/turbopack-core/src/resolve/pattern.rs:1305-1326 | filling a template consumes collected texts and never returns more than it was given |
| PatternMatch.MatchApplyTemplateImpl | turbopack/crates/turbopack-core/src/resolve/pattern.rs:1280-1330 | a template is applied only to a value the pattern matches |
| PatternMatch.MatchApplyTemplateAsWritten | turbopack/crates/turbopack-core/src/resolve/pattern.rs:1280-1330 | `match_apply_template` as written gives a result only for a value the pattern matches |
| PatternMatch.MatchApplyTemplate | turbopack/crates/turbopack-core/src/resolve/pattern.rs:1280-1330 | the corrected `match_apply_template` gives a result only for a value the pattern matches |
| PatternMatch.ConstantTemplate | turbopack/crates/turbopack-core/src/resolve/pattern.rs:1280-1330 | matching a constant against itself and writing a constant template gives that template |
| PatternMatch.TrailingDynamicTemplate | turbopack/crates/turbopack-core/src/resolve/pattern.rs:1280-1330 | with a trailing dynamic part, matching c + v against c·Dynamic and writing d·Dynamic gives d + v, as in the last template test |
| PatternMatch.EmptyDynamicLostAsWritten | turbopack/crates/turbopack-core/src/resolve/pattern.rs:1020-1022 | as written, a dynamic part that matches the empty text before a constant is not collected, so a value that matches a·Dynamic·b finds no text for the target's dynamic part and gives None; the corrected collection gives a' + b' |
| PatternMatch.ConsumedHead | turbopack/crates/turbopack-core/src/resolve/pattern.rs:981-1002 | a concatenation that consumes has consumed with its first part, and the rest continued from where that part stopped |
| PatternMatch.DynamicConsumed | turbopack/crates/turbopack-core/src/resolve/pattern.rs:956-972 | a dynamic part that consumes keeps the value, leaves an offset and resets the node_modules state |
| PatternMatch.ConstantAfterDynamic | turbopack/crates/turbopack-core/src/resolve/pattern.rs:918-933 | a constant after a dynamic part consumes up to its first occurrence, which must lie within the offset |
| PatternMatch.BetweenHead | turbopack/crates/turbopack-core/src/resolve/pattern.rs:909-1006 | in a match of a·Dynamic·b, `a` consumes its text and the dynamic part keeps the rest with an offset, after which `b` matches |
| PatternMatch.BetweenTail | turbopack/crates/turbopack-core/src/resolve/pattern.rs:918-933 | after a dynamic part, `b` occurs first at the end of the value, within the offset |
| PatternMatch.BetweenShape | turbopack/crates/turbopack-core/src/resolve/pattern.rs:909-1006 | every value a·Dynamic·b matches is a + x + b, with `b` occurring first at the end |
| PatternMatch.OccurrenceAtEnd | turbopack/crates/turbopack-core/src/resolve/pattern.rs:918-933 | an occurrence of `t` with nothing after it ends the text |
| PatternMatch.CollectListCons | turbopack/crates/turbopack-core/src/resolve/pattern.rs:1081-1108 | collecting over a concatenation whose first part consumes goes on with the rest from where that part stopped |
| PatternMatch.CollectsTail | turbopack/crates/turbopack-core/src/resolve/pattern.rs:1017-1030 | the corrected collection records the text `x` before a constant `b` that follows a dynamic part, even when it is empty |
| PatternMatch.BetweenCollects | turbopack/crates/turbopack-core/src/resolve/pattern.rs:1008-1110 | the corrected collection of a match of a·Dynamic·b on a + x + b collects exactly `x` |
| PatternMatch.BetweenFills | turbopack/crates/turbopack-core/src/resolve/pattern.rs:1309-1326 | writing a'·Dynamic·b' with the one text `x` gives a' + x + b' and uses every text |
| PatternMatch.BetweenTemplate | turbopack/crates/turbopack-core/src/resolve/pattern.rs:1280-1330 | with the corrected collection, every value a·Dynamic·b matches is a + x + b, and rewriting it to a'·Dynamic·b' gives a' + x + b' |
| PatternMatch.CheckNodeModules | turbopack/crates/turbopack-core/src/resolve/pattern.rs:1356-1364 | `InNodeModules::check`: whether the matched text ends in "node_modules/" or "node_modules"; `NodeModulesStopsDynamic` proves a dynamic part after "node_modules/" matches nothing |
| PatternMatch.ForbiddenAt | turbopack/crates/turbopack-core/src/resolve/pattern.rs:947-949 | the `FORBIDDEN` expression matching at one index: a "/" or the start, then "ROOT", ".", "/", or "node_modules", "__tests__" or "__test__" ending a segment; `FindForbidden` and `ForbiddenSegments` state which segments it stops at |
| PatternMatch.ForbiddenMatch | turbopack/crates/turbopack-core/src/resolve/pattern.rs:950-951 | `FORBIDDEN_MATCH`: the value ends in ".d.ts" or ".map"; `DynamicIsMatch` proves a bare dynamic part never completes such a value |
| PatternMatch.MatchConstant | turbopack/crates/turbopack-core/src/resolve/pattern.rs:917-945 | the constant branch of `match_internal`: the constant next (or within the pending dynamic extent), a prefix of it gives `Partial`; `ConstantIsMatch`, `ConstantCouldMatch` and `ConstantAfterDynamic` state what it matches |
| PatternMatch.MatchDynamic | turbopack/crates/turbopack-core/src/resolve/pattern.rs:946-980 | the dynamic branch of `match_internal`; `DynamicIsMatch`, `DynamicNoSlashIsMatch`, `DynamicCouldMatch` and `DynamicConsumed` state what it matches and where it stops |
| PatternMatch.MatchInternal | turbopack/crates/turbopack-core/src/resolve/pattern.rs:909-1006 | `match_internal` on a normalised alternative; `MatchPattern` proves the source's loop computes it and `IgnoreDynamicAgrees` that ignoring dynamic parts only turns a result into no match |
| PatternMatch.MatchList | turbopack/crates/turbopack-core/src/resolve/pattern.rs:981-1004 | the loop over a concatenation's parts, stopping at the first that does not consume; `ConstantHead` and `IgnoreDynamicAgreesList` state how it proceeds |
| PatternMatch.IsMatch | turbopack/crates/turbopack-core/src/resolve/pattern.rs:820-830 | `Pattern::is_match`: some alternative matches the whole value; `MatchPosition` names the first such alternative and `QueriesImply` proves it implies `could_match` |
| PatternMatch.IsMatchIgnoreDynamic | turbopack/crates/turbopack-core/src/resolve/pattern.rs:834-844 | `Pattern::is_match_ignore_dynamic`; `QueriesImply` proves it implies `is_match` and `DynamicIgnoredNeverMatches` that a bare dynamic part then matches nothing |
| PatternMatch.CouldMatch | turbopack/crates/turbopack-core/src/resolve/pattern.rs:885-895 | `Pattern::could_match`: some alternative matches a prefix of the value's continuations; `ConstantCouldMatch` and `DynamicCouldMatch` state it for single parts |
| PatternMatch.MustMatch | turbopack/crates/turbopack-core/src/resolve/pattern.rs:872-882 | `Pattern::must_match`: every alternative could match; `QueriesImply` proves it implies `could_match` when there is an alternative |
| PatternMatch.CouldMatchOthers | turbopack/crates/turbopack-core/src/resolve/pattern.rs:859-869 | `Pattern::could_match_others`; `QueriesImply` proves it implies `could_match` |
| PatternMatch.IgnoreDynamicAgrees | turbopack/crates/turbopack-core/src/resolve/pattern.rs:946-980 | with `ignore_dynamic` set, `match_internal` gives either no match or the same result as without it |
| PatternMatch.IgnoreDynamicAgreesList | turbopack/crates/turbopack-core/src/resolve/pattern.rs:981-1004 | the same for the loop over a concatenation's parts |
| PatternMatch.QueriesImply | turbopack/crates/turbopack-core/src/resolve/pattern.rs:820-895 | `is_match_ignore_dynamic` implies `is_match`, which implies `could_match`; `could_match_others` implies `could_match`; `must_match` implies `could_match` when there is an alternative |
| PatternMatch.DynamicIgnoredNeverMatches | turbopack/crates/turbopack-core/src/resolve/pattern.rs:834-844 | ignoring dynamic parts, a bare `Dynamic` or `DynamicNoSlash` matches no value |
| PatternMatch.Fill | turbopack/crates/turbopack-core/src/resolve/pattern.rs:1280-1330 | filling a template's dynamic parts with the captured texts in order; `FillList` states the captures it uses and what is left, `MatchApplyTemplate` the whole operation |
| PatternMatch.Select | turbopack/crates/turbopack-core/src/resolve/pattern.rs:1282-1299 | the alternative match_apply_template takes from the pattern and from the target: the one at the matched index, or a constant, `Dynamic` or concatenation itself for index 0; MatchApplyTemplate is stated over it |
| FsPath.IsInsideRef | turbopack/crates/turbo-tasks-fs/src/lib.rs:1211-1221 | a path is inside another iff both are on the same file system and it lies strictly below it (every path is inside the root) |
| FsPath.IsInsideOrEqualRef | turbopack/crates/turbo-tasks-fs/src/lib.rs:1223-1236 | like `is_inside_ref`, but the path itself also counts |
| FsPath.GetPathTo | turbopack/crates/turbo-tasks-fs/src/lib.rs:1245-1257 | a relative path found for `inner` rebuilds it when appended to the base |
| FsPath.GetPathToInside | turbopack/crates/turbo-tasks-fs/src/lib.rs:1245-1257 | `get_path_to` succeeds iff the path lies strictly inside a non-root base, or anywhere on the file system when the base is the root |
| FsPath.GetPathToJoined | turbopack/crates/turbo-tasks-fs/src/lib.rs:1245-1257 | `get_path_to` inverts appending a relative path below the base |
| FsPath.IsPathDenied | turbopack/crates/turbo-tasks-fs/src/lib.rs:286-298 | a path is denied iff it is the denied path or lies below it |
| FsPath.IsPathDeniedExamples | turbopack/crates/turbo-tasks-fs/src/lib.rs:286-298 | denying "denied_dir" denies it and the files below it but not "denied_dir2" |
| FsPath.SplitExtension | turbopack/crates/turbo-tasks-fs/src/lib.rs:1292-1305 | the extension is the text after the last "." of the file name, without "." or "/", and the rest is everything before that "."; a dotfile has no extension |
| FsPath.SplitExtensionOf | turbopack/crates/turbo-tasks-fs/src/lib.rs:1292-1305 | a path whose last "." starts a plain extension splits there |
| FsPath.SplitExtensionNone | turbopack/crates/turbo-tasks-fs/src/lib.rs:1292-1305 | no extension when the text after the last "." holds a "/" or the file name starts with its only "." |
| FsPath.SplitFileName | turbopack/crates/turbo-tasks-fs/src/lib.rs:1310-1317 | the file name holds no "/", and the parent, when present, rebuilds the path with it |
| FsPath.FileName | turbopack/crates/turbo-tasks-fs/src/lib.rs:1269-1272 | the file name is the path's last segment |
| FsPath.FileNameOf | turbopack/crates/turbo-tasks-fs/src/lib.rs:1269-1272 | the file name is the text after the last "/" |
| FsPath.Parent | turbopack/crates/turbo-tasks-fs/src/lib.rs:1615-1621 | the parent drops the last segment; the root is its own parent and a single segment's parent is the root |
| FsPath.ParentOf | turbopack/crates/turbo-tasks-fs/src/lib.rs:1615-1621 | the parent of a path below `parent` is `parent` |
| FsPath.SplitFileStemExtension | turbopack/crates/turbo-tasks-fs/src/lib.rs:1323-1331 | parent, stem and extension rebuild the path, and the extension is `split_extension`'s |
| FsPath.ExtensionRef | turbopack/crates/turbo-tasks-fs/src/lib.rs:1284-1287 | a found extension ends the path after a "." and holds no "." or "/" |
| FsPath.HasExtension | turbopack/crates/turbo-tasks-fs/src/lib.rs:1278-1281 | `has_extension` is a plain suffix test |
| FsPath.WithExtension | turbopack/crates/turbo-tasks-fs/src/lib.rs:1479-1490 | `with_extension` replaces the extension, and the empty extension removes it |
| FsPath.FileStem | turbopack/crates/turbo-tasks-fs/src/lib.rs:1500-1506 | the stem is non-empty, a single segment, and ends the path without its extension |
| FsPath.FileStemNone | turbopack/crates/turbo-tasks-fs/src/lib.rs:1500-1506 | the stem is missing only for the root and for a path ending in "/" |
| FsPath.WithExtensionExtension | turbopack/crates/turbo-tasks-fs/src/lib.rs:1479-1490 | with a plain non-empty extension, the result has exactly that extension and keeps the rest of the path |
| FsPath.WithExtensionExamples | turbopack/crates/turbo-tasks-fs/src/lib.rs:2679-2712 | the test cases on "foo/bar.txt" |
| FsPath.WithExtensionNoSlashExamples | turbopack/crates/turbo-tasks-fs/src/lib.rs:2679-2712 | the test cases on "bar.txt" |
| FsPath.WithExtensionAddsExamples | turbopack/crates/turbo-tasks-fs/src/lib.rs:2679-2712 | the test cases on paths without extension |
| FsPath.FileStemExamples | turbopack/crates/turbo-tasks-fs/src/lib.rs:2714-2735 | the test cases for the root and a nested file |
| FsPath.FileStemRootExample | turbopack/crates/turbo-tasks-fs/src/lib.rs:2714-2735 | the test case for a file at the root |
| FsPath.FileStemNoExtensionExample | turbopack/crates/turbo-tasks-fs/src/lib.rs:2714-2735 | the test case for a file without extension |
| FsPath.FileStemDotfileExample | turbopack/crates/turbo-tasks-fs/src/lib.rs:2714-2735 | a dotfile keeps its dot in the stem |
| FsPath.Append | turbopack/crates/turbo-tasks-fs/src/lib.rs:1381-1393 | `append` adds the suffix to the path, and fails iff the suffix holds a "/" |
| FsPath.AppendToStem | turbopack/crates/turbo-tasks-fs/src/lib.rs:1397-1415 | `append_to_stem` adds the suffix before the extension (or at the end without one), and fails iff the suffix holds a "/" |
| FsPath.AppendToStemKeepsExtension | turbopack/crates/turbo-tasks-fs/src/lib.rs:1397-1415 | appending a plain suffix to the stem keeps the extension |
| FsPath.Components | turbopack/crates/turbo-tasks-fs/src/lib.rs:145-170 | the components of a unix path are non-empty and hold no "/" |
| FsPath.StdFileName | turbopack/crates/turbo-tasks-fs/src/lib.rs:154-158 | the file name the standard library reports is never empty, "." or ".." |
| FsPath.ValidatePathLength | turbopack/crates/turbo-tasks-fs/src/lib.rs:145-170 | on unix, a file name over 255 bytes or a path over 1016 bytes is an error; otherwise the path is returned unchanged |
| FsPath.ValidatePathLengthOrder | turbopack/crates/turbo-tasks-fs/src/lib.rs:153-167 | a too-long file name is reported before a too-long path |
| FsPath.LinesFrom | turbopack/crates/turbo-tasks-fs/src/lib.rs:2166-2178 | one line per piece, holding that piece |
| FsPath.LinesRef | turbopack/crates/turbo-tasks-fs/src/lib.rs:2162-2184 | `lines_ref` gives `NotFound` for a missing file, `Unparsable` for a file that is not text, and otherwise the text's pieces between "\n" with their offsets |
| FsPath.SplitLines | turbopack/crates/turbo-tasks-fs/src/lib.rs:2166-2178 | the loop gives each piece its running byte offset |
| FsPath.LinesFromOffsets | turbopack/crates/turbo-tasks-fs/src/lib.rs:2172-2174 | every line starts at the previous lines' lengths plus one per newline |
| FsPath.LineTextAtOffset | turbopack/crates/turbo-tasks-fs/src/lib.rs:2166-2178 | each line's offset is where its text starts in the file |
| FsPath.LinesRefLocates | turbopack/crates/turbo-tasks-fs/src/lib.rs:2162-2184 | the lines of a text, with their offsets, locate each line in the text |
| FsPath.ToMode | turbopack/crates/turbo-tasks-fs/src/lib.rs:1698-1708 | each permission is written as a unix mode of nine bits: 0o444, 0o664, 0o755 |
| FsPath.FromMode | turbopack/crates/turbo-tasks-fs/src/lib.rs:1710-1724 | a mode reads as read-only iff no write bit is set, else executable iff an execute bit is set, else writable |
| FsPath.FromModeToMode | turbopack/crates/turbo-tasks-fs/src/lib.rs:1698-1724 | writing a permission and reading it back gives the same permission |
| FsPath.OffsetAfter | turbopack/crates/turbo-tasks-fs/src/lib.rs:2166-2178 | the byte offset after some lines, each followed by its newline; `LinesFromOffsets` and `LineTextAtOffset` prove each line starts at that offset and holds that text |
| FsPath.Keep | turbopack/crates/turbo-tasks-fs/src/lib.rs:145-170 | the path components kept after splitting at slashes: none is empty or holds a slash, and "." is dropped after the first position |
| FsPath.OffsetAfterSnoc | turbopack/crates/turbo-tasks-fs/src/lib.rs:2166-2178 | one more line moves the offset on by its length and its newline |
| FsPath.LinesFromTail | turbopack/crates/turbo-tasks-fs/src/lib.rs:2166-2178 | past the first line, the lines are those of the rest of the text, starting after the first line and its newline |
| FsPath.OffsetAfterPrefix | turbopack/crates/turbo-tasks-fs/src/lib.rs:2166-2178 | the offset after a nonempty prefix counts its first line and newline, then the rest |
| FsPath.OffsetAfterCons | turbopack/crates/turbo-tasks-fs/src/lib.rs:2166-2178 | the offset after a line followed by others is its length and newline plus theirs |
| RuleConditions.HasNoExtension | turbopack/crates/turbopack/src/module_options/rule_condition.rs:230-240 | a path has no extension iff its file name (after the last "/") holds no "." |
| RuleConditions.NoDotAfterSlash | turbopack/crates/turbopack/src/module_options/rule_condition.rs:231-238 | when the path holds both characters, a "/" after the last "." means exactly that the file name holds no "." |
| RuleConditions.InDirectorySegment | turbopack/crates/turbopack/src/module_options/rule_condition.rs:241-244 | `ResourcePathInDirectory` holds iff the directory followed by "/" occurs at the start of the path or right after a "/" |
| RuleConditions.BaseName | turbopack/crates/turbopack/src/module_options/rule_condition.rs:264-270 | the base name is the part after the last "/", or the whole path without one |
| RuleConditions.EvalJunctionNeutral | turbopack/crates/turbopack/src/module_options/rule_condition.rs:299-335 | a junction takes its neutral value (true for `All`, false for `Any`) iff every child does |
| RuleConditions.EvalJunctionDecided | turbopack/crates/turbopack/src/module_options/rule_condition.rs:299-335 | a junction takes its deciding value iff some child does and every child before it takes the neutral value |
| RuleConditions.EvalBasics | turbopack/crates/turbopack/src/module_options/rule_condition.rs:212-217 | an empty `All` is true, an empty `Any` false, `Not` inverts a value and passes an error on |
| RuleConditions.EvalJunctionAppend | turbopack/crates/turbopack/src/module_options/rule_condition.rs:299-335 | a junction over two runs of children is the first run's value unless that is neutral, then the second's |
| RuleConditions.SpliceEval | turbopack/crates/turbopack/src/module_options/rule_condition.rs:86-98 | splicing nested junctions of the same kind and neutral constants keeps the junction's value, errors included |
| RuleConditions.CollapseEval | turbopack/crates/turbopack/src/module_options/rule_condition.rs:101-103 | collapsing no child to the neutral constant and one child to that child keeps the value |
| RuleConditions.AbsorbingEval | turbopack/crates/turbopack/src/module_options/rule_condition.rs:76-80 | a junction with a known value that holds its absorbing constant has the absorbing value, which justifies the short circuit |
| RuleConditions.FlattenEachEval | turbopack/crates/turbopack/src/module_options/rule_condition.rs:75 | flattening every child keeps the value of a junction that has one |
| RuleConditions.FlattenEval | turbopack/crates/turbopack/src/module_options/rule_condition.rs:70-157 | `flatten` keeps the value of every condition whose evaluation does not fail |
| RuleConditions.FlattenJunctionEval | turbopack/crates/turbopack/src/module_options/rule_condition.rs:72-139 | flattening a junction keeps its value when it has one |
| RuleConditions.FlattenDropsFailure | turbopack/crates/turbopack/src/module_options/rule_condition.rs:76-80 | `flatten` may turn a failing condition into a constant: `Any` drops an earlier failing child once a later child is true |
| RuleConditions.FlattenInPlace | turbopack/crates/turbopack/src/module_options/rule_condition.rs:70-157 | the in-place `flatten` computes the recursive flattening definition |
| RuleConditions.FlattenJunctionInPlace | turbopack/crates/turbopack/src/module_options/rule_condition.rs:72-139 | for one junction: flatten the children, splice only when needed, collapse by length |
| RuleConditions.FlattenChildren | turbopack/crates/turbopack/src/module_options/rule_condition.rs:74-84 | the loop flattens the children in place, stops exactly when an absorbing child appears, and otherwise says whether any child must be spliced |
| RuleConditions.SpliceNothing | turbopack/crates/turbopack/src/module_options/rule_condition.rs:85-99 | without nested junctions or neutral constants splicing changes nothing, so skipping it is sound |
| RuleConditions.SpliceInPlace | turbopack/crates/turbopack/src/module_options/rule_condition.rs:86-98 | the `flat_map` builds the spliced list |
| RuleConditions.FlattenAnyExamples | turbopack/crates/turbopack/src/module_options/rule_condition.rs:355-392 | the `Any` test cases: a single child collapses, nested junctions and `False` are spliced, `True` short-circuits, an empty `Any` becomes `False` |
| RuleConditions.FlattenAllExamples | turbopack/crates/turbopack/src/module_options/rule_condition.rs:394-431 | the `All` test cases, dually |
| RuleConditions.FlattenNotExamples | turbopack/crates/turbopack/src/module_options/rule_condition.rs:433-451 | double negation is removed and negated constants are folded |
| RuleConditions.JunctionStep | turbopack/crates/turbopack/src/module_options/rule_condition.rs:183-206 | pushing the rest of a junction and evaluating its first child gives the junction's value |
| RuleConditions.NotStep | turbopack/crates/turbopack/src/module_options/rule_condition.rs:207-211 | pushing `Not` and evaluating the inner condition gives the negation's value |
| RuleConditions.ProcessCondition | turbopack/crates/turbopack/src/module_options/rule_condition.rs:173-296 | `process_condition` returns a result and a stack that together evaluate to the condition's value, with less total work left |
| RuleConditions.PushOp | turbopack/crates/turbopack/src/module_options/rule_condition.rs:165-170 | pushing a step adds its weight to the stack |
| RuleConditions.ContinueJunction | turbopack/crates/turbopack/src/module_options/rule_condition.rs:301-335 | an undecided junction on the stack continues with its next child, keeping the overall value and decreasing the work left |
| RuleConditions.Matches | turbopack/crates/turbopack/src/module_options/rule_condition.rs:159-347 | `matches`, driving the explicit stack, returns exactly the recursive value of the condition, errors included |
| RuleConditions.InDirectory | turbopack/crates/turbopack/src/module_options/rule_condition.rs:241-244 | the directory test: the path starts with it or contains it between slashes; InDirectorySegment states it is a whole segment |
| RuleConditions.EvalLeaf | turbopack/crates/turbopack/src/module_options/rule_condition.rs:212-290 | each leaf's value: the constants, the reference type, the virtual-source test, the path tests, the content tests; EvalBasics and FlattenEval rely on it |
| RuleConditions.Eval | turbopack/crates/turbopack/src/module_options/rule_condition.rs:159-340 | the meaning of a condition, children left to right with short-circuit; Matches ensures the stack machine computes it |
| RuleConditions.EvalJunction | turbopack/crates/turbopack/src/module_options/rule_condition.rs:298-333 | `All` or `Any` stops at the first deciding child; EvalJunctionNeutral and EvalJunctionDecided state both directions |
| RuleConditions.Splice | turbopack/crates/turbopack/src/module_options/rule_condition.rs:85-98 | the children with same-kind junctions spliced in and the neutral constant dropped; SpliceEval states the junction's value is kept |
| RuleConditions.Flatten | turbopack/crates/turbopack/src/module_options/rule_condition.rs:70-157 | `flatten` as a value; FlattenEval states it keeps the value wherever the original evaluates |
| RuleConditions.FlattenEach | turbopack/crates/turbopack/src/module_options/rule_condition.rs:74-84 | every child flattened, the count kept; FlattenEachAt states each position is that child's flattening |
| RuleConditions.FlattenEachAt | turbopack/crates/turbopack/src/module_options/rule_condition.rs:74-84 | the `i`th flattened child is the flattening of the `i`th child |
| RuleConditions.FlattenJunction | turbopack/crates/turbopack/src/module_options/rule_condition.rs:72-139 | a flattened junction: the absorbing constant if a child flattens to it, else the spliced children collapsed; FlattenJunctionEval states it keeps the value |
| RuleConditions.Collapse | turbopack/crates/turbopack/src/module_options/rule_condition.rs:101-103 | no child gives the neutral constant, one child gives that child, more keep the junction; CollapseEval states it keeps the value |
| RuleConditions.SpliceAt | turbopack/crates/turbopack/src/module_options/rule_condition.rs:86-98 | one more child of the `flat_map` extends the spliced prefix by that child's part |
| RuleConditions.Resume | turbopack/crates/turbopack/src/module_options/rule_condition.rs:298-340 | the result once the pending steps are popped; ContinueJunction and NotStep state each pop agrees with Eval |
| RuleConditions.Then | turbopack/crates/turbopack/src/module_options/rule_condition.rs:297-340 | a result continued by the pending steps, errors passed on; ProcessCondition states it equals the reference result |
| RuleConditions.Size | turbopack/crates/turbopack/src/module_options/rule_condition.rs:173-296 | a condition's node count, at least one; the measure every step of the loop lowers |
| RuleConditions.Weight | turbopack/crates/turbopack/src/module_options/rule_condition.rs:297-340 | the work left on the stack; PushOp states what pushing adds |
| RuleConditions.SizeStep | turbopack/crates/turbopack/src/module_options/rule_condition.rs:183-206 | the size of a junction's children is its first child's plus the rest's |
| RuleConditions.SpliceOne | turbopack/crates/turbopack/src/module_options/rule_condition.rs:86-98 | what one child contributes to the `flat_map`: the children of a junction of the same kind, nothing for the neutral constant, else the child itself; SpliceAt and SpliceEval are stated with it |
| Issues.SeverityOrder | turbopack/crates/turbopack-core/src/issue/mod.rs:30-43 | the derived order on severities is a strict total order from `Bug` (most severe) to `Info` |
| Issues.AsStr | turbopack/crates/turbopack-core/src/issue/mod.rs:46-57 | every severity has a non-empty name |
| Issues.AsStrInjective | turbopack/crates/turbopack-core/src/issue/mod.rs:46-57 | two severities have the same name iff they are the same severity |
| Issues.UnstyledItems | turbopack/crates/turbopack-core/src/issue/mod.rs:102-119 | each item of a line or stack is rendered on its own, in order |
| Issues.ToUnstyledStringLength | turbopack/crates/turbopack-core/src/issue/mod.rs:102-119 | the unstyled text is as long as all its leaf texts plus one newline between neighbouring items of every stack |
| Issues.ItemsLength | turbopack/crates/turbopack-core/src/issue/mod.rs:104-108 | rendering a list of items gives texts whose lengths add up to the items' leaf lengths |
| Issues.StackLines | turbopack/crates/turbopack-core/src/issue/mod.rs:109-113 | a stack of single-line texts renders to exactly those lines, newline-separated |
| Issues.LineConcatenates | turbopack/crates/turbopack-core/src/issue/mod.rs:104-108 | a line renders its items side by side, so a line of two lines is the concatenation of their texts |
| Issues.FromSwcOffsets | turbopack/crates/turbopack-core/src/issue/mod.rs:383-394 | the swc span's 1-based offsets become 0-based byte offsets; 0 means unknown, both unknown gives no range and one known end is used for both ends |
| Issues.ToSwcOffsets | turbopack/crates/turbopack-core/src/issue/mod.rs:429-446 | a known range gives 1-based offsets (both at least 1); a line/column range gives nothing when the file has no lines |
| Issues.SwcOffsetsRoundTrip | turbopack/crates/turbopack-core/src/issue/mod.rs:383-446 | `to_swc_offsets` undoes `from_swc_offsets` when both ends are known |
| Issues.SwcOffsetsOneSided | turbopack/crates/turbopack-core/src/issue/mod.rs:383-446 | with one end unknown, the round trip gives the known end twice |
| Issues.CountBefore | turbopack/crates/turbopack-core/src/issue/mod.rs:901 | the number of lines starting before an offset separates the lines before it from the others |
| Issues.BinarySearch | turbopack/crates/turbopack-core/src/issue/mod.rs:901 | `binary_search_by` on line starts finds a line iff one starts exactly at the offset, and otherwise gives the insertion point |
| Issues.CountBeforeIs | turbopack/crates/turbopack-core/src/issue/mod.rs:901 | over increasing line starts the insertion point is unique |
| Issues.FindLineAndColumnAtStart | turbopack/crates/turbopack-core/src/issue/mod.rs:902-905 | an offset where a line starts is column 0 of that line |
| Issues.FindLineAndColumnBefore | turbopack/crates/turbopack-core/src/issue/mod.rs:907-911 | an offset before the first line is on line 0 with the offset as column |
| Issues.FindLineAndColumnWithin | turbopack/crates/turbopack-core/src/issue/mod.rs:912-918 | inside a line the column is the distance from its start, clamped to the line's length |
| Issues.FindOffset | turbopack/crates/turbopack-core/src/issue/mod.rs:923-926 | the offset of a position is at least its line's start |
| Issues.ContiguousIncreasing | turbopack/crates/turbo-tasks-fs/src/lib.rs:2166-2178 | lines laid out one after another have strictly increasing starts, as `binary_search_by` needs |
| Issues.FindOffsetRoundTrip | turbopack/crates/turbopack-core/src/issue/mod.rs:900-926 | every offset within contiguous lines maps to a line and column that `find_offset` turns back into the same offset |
| Issues.LinesFromContiguous | turbopack/crates/turbo-tasks-fs/src/lib.rs:2162-2184 | the lines `lines_ref` computes are contiguous and start at offset 0 |
| Issues.TextOffsetRoundTrip | turbopack/crates/turbopack-core/src/issue/mod.rs:900-926 | every offset of a text up to its length survives the conversion to line and column over the text's own lines and back |
| Issues.ItemLessStrictTotal | turbopack/crates/turbopack-core/src/issue/mod.rs:521-530 | the derived order on trace items is a strict total order |
| Issues.TraceLessStrictTotal | turbopack/crates/turbopack-core/src/issue/mod.rs:595-598 | ordering traces by length and then lexicographically is a strict total order, so the sort is deterministic |
| Issues.Displayed | turbopack/crates/turbopack-core/src/issue/mod.rs:556-564 | a simplified trace keeps exactly the items of modules without nested assets |
| Issues.Dedup | turbopack/crates/turbopack-core/src/issue/mod.rs:583 | `dedup` keeps the first item and the same set of items, and leaves no equal neighbours |
| Issues.DedupIdempotent | turbopack/crates/turbopack-core/src/issue/mod.rs:583 | a trace without equal neighbours is left as it is |
| Issues.LongTraces | turbopack/crates/turbopack-core/src/issue/mod.rs:592 | `retain` keeps exactly the traces longer than one item, without adding any |
| Issues.CandidatesSorted | turbopack/crates/turbopack-core/src/issue/mod.rs:592-598 | the traces left to compare are in the trace order |
| Issues.CandidateFrom | turbopack/crates/turbopack-core/src/issue/mod.rs:552-592 | each of them is one input trace, simplified, and longer than one item |
| Issues.CandidatesShape | turbopack/crates/turbopack-core/src/issue/mod.rs:552-592 | they hold no equal neighbours and only items of modules without nested assets |
| Issues.IntoPlainTrace | turbopack/crates/turbopack-core/src/issue/mod.rs:552-626 | `into_plain_trace` returns sorted traces drawn from the candidates, no trace ends with an earlier one, and every candidate ends with some returned trace |
| Issues.RemoveOverlaps | turbopack/crates/turbopack-core/src/issue/mod.rs:607-623 | the nested loops keep the order, only remove traces, leave no trace ending with an earlier one, and every input trace still ends with some kept trace |
| Issues.RemoveEndingWith | turbopack/crates/turbopack-core/src/issue/mod.rs:610-620 | after the inner loop no later trace ends with any trace up to `i`, the order is kept, traces are only removed, and every input trace still ends with some kept trace |
| Issues.RemoveAt | turbopack/crates/turbopack-core/src/issue/mod.rs:612-619 | removing a trace that ends with the trace at `i` keeps every property the loops maintain |
| Issues.SeverityLess | turbopack/crates/turbopack-core/src/issue/mod.rs:30-43 | the derived order of `IssueSeverity`, following the declaration from `Bug` to `Info`; `SeverityOrder` proves it is a strict total order with `Bug` first and `Info` last |
| Issues.ToUnstyledString | turbopack/crates/turbopack-core/src/issue/mod.rs:102-119 | `StyledString::to_unstyled_string`: line items side by side, stack items one per line, leaves as their text; `UnstyledItems`, `StackLines`, `LineConcatenates` and `ToUnstyledStringLength` state its content and length |
| Issues.FindLineAndColumn | turbopack/crates/turbopack-core/src/issue/mod.rs:900-926 | `find_line_and_column`: the line holding an offset and the column in it; `FindLineAndColumnAtStart`, `FindLineAndColumnBefore` and `FindLineAndColumnWithin` state each case and `FindOffsetRoundTrip` that `find_offset` inverts it |
| Issues.TraceLess | turbopack/crates/turbopack-core/src/issue/mod.rs:595-598 | the order of plain traces, shorter first and then item by item; `TraceLessStrictTotal` proves it is a strict total order |
| Issues.ItemLess | turbopack/crates/turbopack-core/src/issue/mod.rs:521-530 | the derived field-by-field order of trace items, `None` layers first; `ItemLessStrictTotal` proves it is a strict total order |
| Issues.SeqEndsWith | turbopack/crates/turbopack-core/src/issue/mod.rs:610-620 | slice `ends_with`; `SeqEndsWithTransitive` proves it transitive, which the removal of overlapping traces relies on |
| Issues.Candidates | turbopack/crates/turbopack-core/src/issue/mod.rs:552-598 | the traces after simplification, deduplication, filtering of short traces and sorting; `CandidatesSorted`, `CandidatesShape` and `CandidateFrom` state that they are sorted, free of equal neighbours and drawn from the input |
| Issues.Rank | turbopack/crates/turbopack-core/src/issue/mod.rs:30-43 | each severity's position in declaration order; SeverityOrder states the derived order is the order of ranks |
| Issues.UnstyledLength | turbopack/crates/turbopack-core/src/issue/mod.rs:102-119 | the text's length counted from its leaves plus one newline between stacked items; ToUnstyledStringLength states the rendering has it |
| Issues.JoinLength | turbopack/crates/turbopack-core/src/issue/mod.rs:109-113 | a join is as long as its parts plus one separator between each two |
| Issues.StringsLength | turbopack/crates/turbopack-core/src/issue/mod.rs:104-113 | the total length of the parts |
| Issues.Increasing | turbopack/crates/turbo-tasks-fs/src/lib.rs:2162-2184 | line starts strictly increase; FindLineAndColumn relies on it for the binary search |
| Issues.Contiguous | turbopack/crates/turbo-tasks-fs/src/lib.rs:2166-2178 | each line starts one byte after the previous ends; ContiguousIncreasing states this gives increasing starts |
| Issues.ContiguousStep | turbopack/crates/turbo-tasks-fs/src/lib.rs:2166-2178 | a later line of contiguous lines starts strictly after an earlier one |
| Issues.JoinEnd | turbopack/crates/turbo-tasks-fs/src/lib.rs:2162-2184 | the last line of a joined text ends where the text ends |
| Issues.OffsetAfterLength | turbopack/crates/turbo-tasks-fs/src/lib.rs:2162-2184 | the offset after the lines is their lengths plus one newline each |
| Issues.StringsLengthSnoc | turbopack/crates/turbo-tasks-fs/src/lib.rs:2162-2184 | one more part adds its length |
| Issues.ItemKey | turbopack/crates/turbopack-core/src/issue/mod.rs:521-530 | the fields of a trace item in declaration order, a missing layer first; ItemLessStrictTotal states the order is strict and total |
| Issues.ItemKeyInjective | turbopack/crates/turbopack-core/src/issue/mod.rs:521-530 | two items with the same key are equal, so the order distinguishes every two items |
| Issues.SeqEndsWithTransitive | turbopack/crates/turbopack-core/src/issue/mod.rs:610-620 | a trace ending with one that ends with a third ends with the third |
| Issues.NoAdjacentDuplicates | turbopack/crates/turbopack-core/src/issue/mod.rs:583 | no two neighbours are equal; Dedup states its result has this property |
| Issues.LengthSum | turbopack/crates/turbopack-core/src/issue/mod.rs:102-119 | the lengths of the items of a line, added up; UnstyledLength and ToUnstyledStringLength state the rendering has that length |
| SegmentConfig.OrElse | crates/next-core/src/segment_config.rs:122-127 | `Option::or`: the own value when set, else the other |
| SegmentConfig.MergeParallel | crates/next-core/src/segment_config.rs:133-154 | one field merges iff not both sides are set to different values; a conflict names the field; otherwise the set value wins |
| SegmentConfig.MergeParallelSymmetric | crates/next-core/src/segment_config.rs:133-154 | merging one field succeeds the same either way round, with the same value |
| SegmentConfig.FirstConflict | crates/next-core/src/segment_config.rs:163-177 | the first conflicting field in the source's order, or none |
| SegmentConfig.ApplyParallelFirstConflict | crates/next-core/src/segment_config.rs:132-178 | `apply_parallel_config` fails exactly at the first conflicting field, naming it; the fields before it are merged and the later ones untouched; without conflict every field is merged |
| SegmentConfig.ApplyParallelStages | crates/next-core/src/segment_config.rs:163-177 | the same, with the first conflict spelled out field by field |
| SegmentConfig.MergeOk | crates/next-core/src/segment_config.rs:133-154 | a field without conflict merges |
| SegmentConfig.MergeErr | crates/next-core/src/segment_config.rs:139-145 | a conflicting field fails with its name |
| SegmentConfig.ApplyParallelSymmetric | crates/next-core/src/segment_config.rs:132-178 | without conflicts the order of sibling routes does not matter for the merged fields |
| SegmentConfig.WithParentIdempotent | crates/next-core/src/segment_config.rs:112-128 | applying the same parent twice changes nothing more |
| SegmentConfig.WithParentChain | crates/next-core/src/segment_config.rs:112-128 | applying parents one after the other is applying the first parent completed by the second |
| SegmentConfig.NextSegmentConfig.Default | crates/next-core/src/segment_config.rs:83-108 | the default config has every field unset |
| SegmentConfig.NextSegmentConfig.Of | crates/next-core/src/segment_config.rs:83-100 | a config holding a given value |
| SegmentConfig.NextSegmentConfig.ApplyParentConfig | crates/next-core/src/segment_config.rs:112-128 | unset inheritable fields take the parent's values; set ones and the other fields are kept |
| SegmentConfig.NextSegmentConfig.ApplyParallelConfig | crates/next-core/src/segment_config.rs:132-178 | the config after the call and the result are those of the field-by-field merge that stops at the first conflict |
| SegmentConfig.FileConfigs | crates/next-core/src/segment_config.rs:1305-1316 | at most three file configs: page, default and layout, when present |
| SegmentConfig.TreeConfigPrecedence | crates/next-core/src/segment_config.rs:1286-1320 | the values merged from parallel routes win over the page's, which win over the default's, which win over the layout's |
| SegmentConfig.WithParentsChain | crates/next-core/src/segment_config.rs:1305-1316 | applying parents in turn is applying their combination once |
| SegmentConfig.TreeConfigKeepsOtherFields | crates/next-core/src/segment_config.rs:1286-1320 | the matcher, the metadata flags and `generateStaticParams` of a tree's config stay at their defaults |
| SegmentConfig.ParseLoaderTree | crates/next-core/src/segment_config.rs:1286-1320 | the tree's config is computed, failing with the first conflict's message |
| SegmentConfig.MergeParallelConfigs | crates/next-core/src/segment_config.rs:1300-1302 | the loop applies each parallel route's config and stops at the first conflict |
| SegmentConfig.ApplyParents | crates/next-core/src/segment_config.rs:1305-1317 | the loop applies the page, default and layout configs as parents |
| SegmentConfig.Values | crates/next-core/src/segment_config.rs:1292-1298 | the values of the child configs, in order |
| SegmentConfig.ParseChildren | crates/next-core/src/segment_config.rs:1292-1298 | the configs of the parallel routes, each a fresh object, or the error of a child |
| SegmentConfig.StringItems | crates/next-core/src/segment_config.rs:960-967 | the strings of an array are kept, in order |
| SegmentConfig.ItemIssues | crates/next-core/src/segment_config.rs:968-979 | an issue for each item that is not a string |
| SegmentConfig.ParseStaticStringOrArray | crates/next-core/src/segment_config.rs:947-999 | a string gives a one-element list, an array the strings in it with an issue per other item, and anything else no list and one issue naming the sub-key when it differs from the key |
| SegmentConfig.ItemsKeptOrReported | crates/next-core/src/segment_config.rs:960-982 | every item is either kept or reported |
| SegmentConfig.StringArrayRoundTrip | crates/next-core/src/segment_config.rs:960-982 | an array of strings is read back as those strings with no issue |
| SegmentConfig.WithParent | crates/next-core/src/segment_config.rs:112-128 | `apply_parent_config`: each inheritable field keeps its value when set and takes the parent's otherwise; `WithParentIdempotent` and `WithParentChain` prove applying a parent twice changes nothing and chains compose |
| SegmentConfig.ApplyParallel | crates/next-core/src/segment_config.rs:132-178 | `apply_parallel_config`: fields merged in order, the first conflict stopping it; `ApplyParallelFirstConflict`, `ApplyParallelStages` and `ApplyParallelSymmetric` state which field fails and that the outcome does not depend on the order of the two configs |
| SegmentConfig.MergedUpTo | crates/next-core/src/segment_config.rs:163-177 | the config with the first `k` fields merged; `ApplyParallelStages` proves the state when a conflict stops the merge |
| SegmentConfig.MergeAll | crates/next-core/src/segment_config.rs:1300-1302 | parallel route configs merged in turn; `MergeParallelConfigs` proves the loop computes it and `MergeAllKeepsOtherFields` that it sets only inheritable fields |
| SegmentConfig.WithParents | crates/next-core/src/segment_config.rs:1305-1316 | parent configs applied in turn; `WithParentsChain`, `WithParentsKeepsOtherFields` and `ApplyParents` state it |
| SegmentConfig.TreeConfig | crates/next-core/src/segment_config.rs:1286-1320 | the config of a loader tree; `TreeConfigPrecedence` proves a segment's own value wins over its parallel routes and they over the parents, and `ParseLoaderTree` that the source's walk computes it |
| SegmentConfig.ChildConfigs | crates/next-core/src/segment_config.rs:1292-1298 | the configs of the parallel routes, failing with the first failure; `ParseChildren` proves the loop computes it |
| SegmentConfig.EntryIssue | crates/next-core/src/segment_config.rs:968-979 | the issue reported for an array item that is not a static string; `ItemIssues` and `ItemsKeptOrReported` prove one is reported per such item |
| SegmentConfig.ConflictMessage | crates/next-core/src/segment_config.rs:139-145 | the message naming the field whose sibling values conflict; MergeParallel proves it is the error exactly when both sides hold different values |
| SegmentConfig.ConflictAt | crates/next-core/src/segment_config.rs:163-177 | the field at a position of the checked order holds two different values; ApplyParallelFirstConflict proves the merge reports the first such field |
| SegmentConfig.NextSegmentConfig.Value | crates/next-core/src/segment_config.rs:83-108 | the config's fields as a value, in terms of which every method states its contract |
| SegmentConfig.OtherFieldsDefault | crates/next-core/src/segment_config.rs:1286-1320 | the fields only a page file sets are at their defaults; TreeConfigKeepsOtherFields proves a tree's merged config leaves them so |
| SegmentConfig.MergeAllKeepsOtherFields | crates/next-core/src/segment_config.rs:1300-1302 | merging the parallel routes' configs leaves the page-only fields at their defaults |
| SegmentConfig.WithParentsKeepsOtherFields | crates/next-core/src/segment_config.rs:1305-1316 | applying the parent configs leaves the page-only fields at their defaults |
| NftJson.GetOutputSpecifier | crates/next-api/src/nft_json.rs:79-100 | a file among the outputs is listed relative to the manifest's folder, a file of the project relative to that folder's counterpart in the project file system, and anything else fails with "cannot handle filepath" |
| NftJson.RelativePathTo | turbopack/crates/turbo-tasks-fs/src/lib.rs:1259-1265 | `get_relative_path_to` is defined iff both paths are on the same file system |
| NftJson.RelativizeFrom | crates/next-api/src/nft_json.rs:365-383 | the rebased glob has no leading "./" or "../", is a suffix of the original, and stays on the same file system; leaving the root fails with the "navigates out of the project root" message |
| NftJson.RelativizeGlobLoop | crates/next-api/src/nft_json.rs:361-384 | the loop of `relativize_glob` computes the rebasing |
| NftJson.DotSlashKeepsBase | crates/next-api/src/nft_json.rs:377-378 | a leading "./" is dropped and leaves the base unchanged |
| NftJson.DotSlashesKeepBase | crates/next-api/src/nft_json.rs:377-378 | any number of leading "./" are dropped and leave the base unchanged |
| NftJson.DotDotMovesToParent | crates/next-api/src/nft_json.rs:368-376 | a leading "../" moves the base to its parent, and is rejected at the root |
| NftJson.OutOfRootMessageNames | crates/next-api/src/nft_json.rs:370-373 | the rejection names the glob and says it navigates out of the project root |
| NftJson.UnprefixedKept | crates/next-api/src/nft_json.rs:379-383 | a glob without directives is returned as is, with the base unchanged |
| NftJson.RelativizeIdempotent | crates/next-api/src/nft_json.rs:361-384 | rebasing a rebased glob changes nothing |
| NftJson.RelativizeGlobKeepsExamples | crates/next-api/src/nft_json.rs:531-585 | the test globs that need no rebasing or only drop "./" |
| NftJson.DotSlashExample | crates/next-api/src/nft_json.rs:558-585 | "./components/*.tsx" keeps its base and drops "./" |
| NftJson.RelativizeTwoUp | crates/next-api/src/nft_json.rs:587-615 | "../../g" from "a/b/c" gives `g` relative to "a" |
| NftJson.RelativizeMixed | crates/next-api/src/nft_json.rs:617-645 | "./../g" from "a/b" gives `g` relative to "a" |
| NftJson.RelativizeOutOfRoot | crates/next-api/src/nft_json.rs:647-670 | "../g" from the root and "../../g" from a single directory are rejected |
| NftJson.RelativizeGlob | crates/next-api/src/nft_json.rs:361-384 | `relativize_glob`: strips "./" and "../" directives, moving the base up for each "../", and fails when that leaves the root; `RelativizeGlobLoop`, `UnprefixedKept`, `RelativizeIdempotent` and the test lemmas state it |
| NftJson.OutOfRootMessage | crates/next-api/src/nft_json.rs:370-373 | the error for a "../" that leaves the project root; `OutOfRootMessageNames` proves it names the glob |
| NftJson.Unprefixed | crates/next-api/src/nft_json.rs:379-383 | the glob no longer starts with "./" or "../", where the loop stops; RelativizeFrom proves its result is unprefixed and UnprefixedKept that an unprefixed glob is kept as it is |
| NftJson.EndsWithAfterDrop | crates/next-api/src/nft_json.rs:365-383 | what remains after dropping leading directives is a suffix of the glob |
| NftJson.Repeat | crates/next-api/src/nft_json.rs:377-378 | a string repeated n times; DotSlashesKeepBase proves any number of leading "./" leaves the base and the rest unchanged |
| NextUtil.DefineValueOf | crates/next-core/src/util.rs:42-51 | an unset variable is undefined, text that parses as JSON is that JSON, and anything else is evaluated as code |
| NextUtil.NameSegments | crates/next-core/src/util.rs:38-41 | the name segments of a key, joined by ".", give the key back |
| NextUtil.InsertFirst | crates/next-core/src/util.rs:36-51 | `entry().or_insert_with()` keeps an existing key's value and otherwise appends the key with the new value |
| NextUtil.DefinesOf | crates/next-core/src/util.rs:33-56 | the defines keep their key order consistent with their map |
| NextUtil.ComputeDefines | crates/next-core/src/util.rs:33-56 | the loop of `defines` computes the defines of the environment |
| NextUtil.DefinesFirstWins | crates/next-core/src/util.rs:36-51 | every key of the environment is defined, with the value of its first entry |
| NextUtil.DefinedKeyFrom | crates/next-core/src/util.rs:33-56 | every defined key comes from an entry of the environment |
| NextUtil.NameSegmentsInjective | crates/next-core/src/util.rs:38-41 | distinct keys have distinct name segments |
| NextUtil.PathnameForPath | crates/next-core/src/util.rs:70-95 | the pathname fails iff the path is not below the server root, and otherwise starts with "/" |
| NextUtil.PathnameForPathJoined | crates/next-core/src/util.rs:85-91 | a path below the root maps to "/" and its relative path; the root itself is "/index" for data routes and "/" otherwise |
| NextUtil.AssetPrefixFromPathname | crates/next-core/src/util.rs:99-107 | "/" becomes "/index", "/index" and paths below it get "/index" in front, and other pathnames are kept |
| NextUtil.AssetPrefixInjective | crates/next-core/src/util.rs:99-107 | distinct pathnames get distinct asset prefixes |
| NextUtil.AssetPathFromPathname | crates/next-core/src/util.rs:110-112 | the asset path is the asset prefix followed by the extension |
| NextUtil.AssetPathExamples | crates/next-core/src/util.rs:99-112 | the asset paths of "/", "/index", "/index/about" and "/about" |
| NextUtil.AppFunctionName | crates/next-core/src/util.rs:180-182 | the app function name is "app" followed by the page |
| NextUtil.PagesFunctionName | crates/next-core/src/util.rs:183-185 | the pages function name is "pages" followed by the page |
| NextUtil.FunctionNamesDistinct | crates/next-core/src/util.rs:180-185 | app and pages function names never collide |
| NextUtil.WebpackLoaderConditions | crates/next-core/src/util.rs:214-220 | each runtime gives one loader condition |
| NextUtil.CustomResolveConditions | crates/next-core/src/util.rs:223-229 | each runtime gives one resolve condition |
| NextUtil.RuntimeConditionsDistinct | crates/next-core/src/util.rs:212-230 | each runtime has its own loader and resolve condition |
| NextUtil.WellFormedDefines | crates/next-core/src/util.rs:33-56 | the defines map lists each key once, in insertion order; `InsertFirst` and `DefinesOf` prove every step keeps it |
| CodeBuilding.PushedMap | turbopack/crates/turbopack-core/src/code_builder.rs:184-199 | nothing is recorded when mappings are not collected; a map is recorded at the current end of the code; an empty map is dropped at the start or right after another empty map |
| CodeBuilding.Shift | turbopack/crates/turbopack-core/src/code_builder.rs:164-170 | prebuilt mappings keep their maps and move behind the code so far |
| CodeBuilding.PushMapKeepsValid | turbopack/crates/turbopack-core/src/code_builder.rs:184-199 | pushing a map keeps the mapping list valid: offsets never decrease and stay within the code, the list never starts with an empty map, and no two empty maps follow each other |
| CodeBuilding.ConcatMappingsValid | turbopack/crates/turbopack-core/src/code_builder.rs:154-177 | valid mappings followed by the shifted valid mappings of code placed at their end are valid for both pieces together |
| CodeBuilding.PushCodeKeepsValid | turbopack/crates/turbopack-core/src/code_builder.rs:154-177 | pushing prebuilt valid code keeps the mapping list valid, since the prebuilt list starts with a map |
| CodeBuilding.PushCodeShifts | turbopack/crates/turbopack-core/src/code_builder.rs:164-170 | pushed prebuilt mappings keep their maps and are moved by the length of the code before them |
| CodeBuilding.CodeBuilder.Default | turbopack/crates/turbopack-core/src/code_builder.rs:115-123 | the default builder collects mappings and has no debug id |
| CodeBuilding.CodeBuilder.constructor | turbopack/crates/turbopack-core/src/code_builder.rs:126-132 | `new` collects mappings only when asked to |
| CodeBuilding.CodeBuilder.PushMap | turbopack/crates/turbopack-core/src/code_builder.rs:184-199 | `push_map` leaves the code as it is and records the map as described |
| CodeBuilding.CodeBuilder.PushStaticBytes | turbopack/crates/turbopack-core/src/code_builder.rs:137-140 | synthetic code is appended after an empty map |
| CodeBuilding.CodeBuilder.PushSource | turbopack/crates/turbopack-core/src/code_builder.rs:145-148 | user code is appended after its map, if any |
| CodeBuilding.CodeBuilder.PushCode | turbopack/crates/turbopack-core/src/code_builder.rs:154-177 | prebuilt code is appended and its mappings moved behind the code so far, after an empty map when it starts without one |
| CodeBuilding.CodeBuilder.HasSourceMap | turbopack/crates/turbopack-core/src/code_builder.rs:201-205 | the builder has a source map iff it collects mappings and has recorded one |
| CodeBuilding.CodeBuilder.Build | turbopack/crates/turbopack-core/src/code_builder.rs:207-213 | `build` keeps the code, the mappings (none when not collected) and the debug-id flag; the built code is valid and has a source map iff the builder had one |
| CodeBuilding.FromCode | turbopack/crates/turbopack-core/src/code_builder.rs:239-245 | a builder from code is a default builder with that code pushed |
| CodeBuilding.NotCollectingRecordsNothing | turbopack/crates/turbopack-core/src/code_builder.rs:126-132 | a builder that does not collect mappings records nothing, whatever is pushed |
| CodeBuilding.PushMapRecordsAtEnd | turbopack/crates/turbopack-core/src/code_builder.rs:198 | a map is recorded at the current end of the code, after the earlier mappings |
| CodeBuilding.Advance | turbopack/crates/turbopack-core/src/code_builder.rs:314 | moving over code never moves the position back |
| CodeBuilding.AdvanceConcat | turbopack/crates/turbopack-core/src/code_builder.rs:306-318 | moving over two pieces of code in turn is moving over both at once, so reading the code in buffer-sized pieces does not change the position |
| CodeBuilding.PositionAtMonotone | turbopack/crates/turbopack-core/src/code_builder.rs:306-318 | a later byte has a later or equal position |
| CodeBuilding.SectionOf | turbopack/crates/turbopack-core/src/code_builder.rs:321-334 | a mapping contributes its map at its position, or an empty map unless it falls at a line start or before a newline |
| CodeBuilding.Sections | turbopack/crates/turbopack-core/src/code_builder.rs:306-335 | at most one section per mapping |
| CodeBuilding.GenerateSourceMapRef | turbopack/crates/turbopack-core/src/code_builder.rs:294-345 | `generate_source_map_ref` walks the code once, mapping by mapping, and gives the map of its sections, a single section at the start without debug id standing for itself |
| CodeBuilding.DebugIdSectionsFromLineOne | turbopack/crates/turbopack-core/src/code_builder.rs:298-300 | with a debug id every section starts on line 1 or later, so the map is always sectioned |
| CodeBuilding.SectionsOrdered | turbopack/crates/turbopack-core/src/code_builder.rs:306-335 | sections follow the code: their positions never go back |
| CodeBuilding.SectionsAtMost | turbopack/crates/turbopack-core/src/code_builder.rs:306-335 | every section of mappings up to byte `k` lies at or before that byte's position |
| CodeBuilding.SectionsKeepMaps | turbopack/crates/turbopack-core/src/code_builder.rs:321-322 | every source map of the code becomes a section, in order |
| CodeBuilding.MappingsValid | turbopack/crates/turbopack-core/src/code_builder.rs:154-199 | the invariant of the mapping list that PushMapKeepsValid, ConcatMappingsValid and PushCodeKeepsValid prove every push keeps |
| CodeBuilding.CodeValid | turbopack/crates/turbopack-core/src/code_builder.rs:207-213 | built code carries a valid mapping list, which GenerateSourceMapRef requires and PushCodeKeepsValid preserves |
| CodeBuilding.CodeHasSourceMap | turbopack/crates/turbopack-core/src/code_builder.rs:201-205 | code has a source map exactly when it records a mapping; NotCollectingRecordsNothing and PushMapRecordsAtEnd relate it to the pushes |
| CodeBuilding.PushedCode | turbopack/crates/turbopack-core/src/code_builder.rs:154-177 | pushing prebuilt code: PushCodeKeepsValid proves it keeps the list valid and PushCodeShifts that the prebuilt mappings land shifted behind the code so far |
| CodeBuilding.PositionLe | turbopack/crates/turbopack-core/src/code_builder.rs:306-318 | the order on line and column that Advance never goes back on and PositionAtMonotone proves along the code |
| CodeBuilding.Start | turbopack/crates/turbopack-core/src/code_builder.rs:298-300 | the first line is line 1 when a debug-id comment is prepended, else line 0; DebugIdSectionsFromLineOne states what follows for the sections |
| CodeBuilding.PositionAt | turbopack/crates/turbopack-core/src/code_builder.rs:306-318 | the line and column of a byte of the code; PositionAtMonotone proves it never goes back as the offset grows |
| CodeBuilding.OffsetsWithin | turbopack/crates/turbopack-core/src/code_builder.rs:306-335 | every mapping lies within the code, the precondition under which Sections and SectionsAtMost are stated |
| CodeBuilding.GenerateSourceMap | turbopack/crates/turbopack-core/src/code_builder.rs:294-345 | the generated map: GenerateSourceMapRef computes it by walking the code, SectionsOrdered proves its sections in order and SectionsKeepMaps that they keep every given map |
| CodeBuilding.InOrder | turbopack/crates/turbopack-core/src/code_builder.rs:306-335 | sections whose positions never go back, which SectionsOrdered proves of Sections |
| CodeBuilding.AllAtMost | turbopack/crates/turbopack-core/src/code_builder.rs:306-335 | sections at or before a position, which SectionsAtMost proves of the mappings up to an offset |
| CodeBuilding.GivenMaps | turbopack/crates/turbopack-core/src/code_builder.rs:321-334 | the maps the mappings carry, in order; SectionsKeepMaps proves the sections hold exactly these |
| CodeBuilding.SectionMaps | turbopack/crates/turbopack-core/src/code_builder.rs:321-334 | the given maps of a list of sections; SectionMapsConcat proves it distributes over concatenation |
| CodeBuilding.SectionMapsConcat | turbopack/crates/turbopack-core/src/code_builder.rs:321-334 | the maps of two section lists joined are the maps of the first followed by those of the second |
| TasksUtil.DivCeil | turbopack/crates/turbo-tasks/src/util.rs:272 | `div_ceil` is the smallest count of `b`-sized pieces that covers `a` |
| TasksUtil.GoodChunkCount | turbopack/crates/turbo-tasks/src/util.rs:269-271 | the aimed-at chunk count is positive: four per thread, or 16 when the parallelism is unknown |
| TasksUtil.GoodChunkSize | turbopack/crates/turbo-tasks/src/util.rs:268-273 | `good_chunk_size` is the smallest size that splits `len` items into at most the aimed-at number of chunks, and 0 only for no items |
| TasksUtil.ChunkRangesCover | turbopack/crates/turbo-tasks/src/util.rs:302-315 | the chunks follow each other from the start index without gap or overlap, each holds between 1 and `chunk_size` items, all but the last exactly `chunk_size`, and the last ends at the length |
| TasksUtil.ChunkRangesConcat | turbopack/crates/turbo-tasks/src/util.rs:299-366 | the items of the chunks, concatenated in order, are the items not yet handed out: every item lands in exactly one chunk |
| TasksUtil.IntoChunks.constructor | turbopack/crates/turbo-tasks/src/util.rs:277-291 | `into_chunks` starts at the first item |
| TasksUtil.IntoChunks.Next | turbopack/crates/turbo-tasks/src/util.rs:302-315 | `next` hands out the next range, up to `chunk_size` items, as a chunk of the same buffer, and nothing once every item is handed out |
| TasksUtil.IntoChunks.CollectRanges | turbopack/crates/turbo-tasks/src/util.rs:299-316 | iterating to the end hands out exactly the chunk ranges |
| TasksUtil.IntoChunks.NextItem | turbopack/crates/turbo-tasks/src/util.rs:319-329 | `next_item` takes the next item not yet handed out |
| TasksUtil.IntoChunks.Drop | turbopack/crates/turbo-tasks/src/util.rs:332-337 | dropping the iterator drops every item not yet handed out in a chunk |
| TasksUtil.Chunk.constructor | turbopack/crates/turbo-tasks/src/util.rs:305-309 | a chunk covers a range of the shared buffer |
| TasksUtil.Chunk.Next | turbopack/crates/turbo-tasks/src/util.rs:348-358 | a chunk hands out its items in index order |
| TasksUtil.Chunk.Drain | turbopack/crates/turbo-tasks/src/util.rs:361-366 | draining a chunk, as its `Drop` does, takes its remaining items in order |
| TasksUtil.Messages | turbopack/crates/turbo-tasks/src/util.rs:77-85 | the serialised messages start with the error's own message, then its sources' in turn |
| TasksUtil.Serialize | turbopack/crates/turbo-tasks/src/util.rs:76-86 | the loop of `serialize` collects those messages |
| TasksUtil.FromMessages | turbopack/crates/turbo-tasks/src/util.rs:88-101 | deserialising fails with "expected at least 1 error message" iff the list is empty; otherwise the last message is the root and each earlier one wraps the rest as context |
| TasksUtil.Deserialize | turbopack/crates/turbo-tasks/src/util.rs:88-101 | the loop of `deserialize` pops the messages from the back |
| TasksUtil.MessagesWrap | turbopack/crates/turbo-tasks/src/util.rs:96-98 | wrapping an error in contexts puts their messages in front of its own |
| TasksUtil.SerializeDeserialize | turbopack/crates/turbo-tasks/src/util.rs:76-101 | deserialising a non-empty list and serialising it again gives the list back |
| TasksUtil.WrapMessages | turbopack/crates/turbo-tasks/src/util.rs:92-98 | the messages of contexts around an error deserialise to those contexts around it |
| TasksUtil.DeserializeSerialize | turbopack/crates/turbo-tasks/src/util.rs:76-101 | serialising an error chain and deserialising it gives the same chain |
| TasksUtil.PointeeEqualProperties | turbopack/crates/turbo-tasks/src/util.rs:214-226 | equality of a static or shared value compares the values, not how they are held: it is an equivalence, equal values hash alike, and a static and a shared copy are equal |
| TasksUtil.ChunkRanges | turbopack/crates/turbo-tasks/src/util.rs:299-316 | the ranges the chunk iterator yields; ChunkRangesCover proves they are consecutive, non-empty, at most the chunk size and end at the length, and ChunkRangesConcat that their items are the buffer's in order |
| TasksUtil.Flatten | turbopack/crates/turbo-tasks/src/util.rs:299-366 | the items of a list of ranges in order; ChunkRangesConcat proves the chunk ranges flatten to the buffer's items |
| TasksUtil.SliceSplit | turbopack/crates/turbo-tasks/src/util.rs:302-315 | the items up to a split point followed by those after it are the items from the start |
| TasksUtil.FlattenCons | turbopack/crates/turbo-tasks/src/util.rs:302-315 | flattening a first range in bounds puts its items first |
| TasksUtil.IntoChunks.Valid | turbopack/crates/turbo-tasks/src/util.rs:277-291 | the iterator's next index stays within the buffer, which every method keeps |
| TasksUtil.Chunk.Valid | turbopack/crates/turbo-tasks/src/util.rs:341-366 | a chunk's range stays within the buffer, which Next and Drain keep |
| TasksUtil.ChunkIteratorExample | turbopack/crates/turbo-tasks/src/util.rs:372-393 | the unit test's walk over ten items in chunks of three, whose asserted values the method proves |
| TasksUtil.Display | turbopack/crates/turbo-tasks/src/util.rs:56-60 | the error's own message; Messages proves it comes first in the serialisation |
| TasksUtil.Source | turbopack/crates/turbo-tasks/src/util.rs:47-49 | the cause of an error, if any; Serialize follows it and Messages lists the causes' messages in turn |
| TasksUtil.Wrap | turbopack/crates/turbo-tasks/src/util.rs:88-101 | an error wrapped in contexts, the first outermost; MessagesWrap proves their messages come first, and WrapMessages that deserialising gives it back |
| TasksUtil.Deref | turbopack/crates/turbo-tasks/src/util.rs:197-203 | the value pointed to, whether static or shared |
| TasksUtil.PointeeEqual | turbopack/crates/turbo-tasks/src/util.rs:214-226 | equality by the values pointed to; PointeeEqualProperties proves it an equivalence that ignores how the value is held |
| Invalidation.InsertWellFormed | turbopack/crates/turbo-tasks/src/invalidation.rs:210-253 | insertion keeps the set's invariant: the key order lists exactly the map's keys once each, typed keys hold reasons of their kind, untyped keys a single reason under a tag already handed out |
| Invalidation.UntypedAlwaysAdded | turbopack/crates/turbo-tasks/src/invalidation.rs:245-251 | a reason without a kind always gets an entry of its own at the end under a fresh tag, even when an equal reason is in the set |
| Invalidation.UntypedEntriesSingle | turbopack/crates/turbo-tasks/src/invalidation.rs:245-251 | an untyped key only ever holds a single reason, which is why `Display` may treat the other case as unreachable |
| Invalidation.UntypedTagsBelow | turbopack/crates/turbo-tasks/src/invalidation.rs:245-251 | every untyped key holds a tag below the next one to hand out, so a fresh tag never collides |
| Invalidation.TypedMerged | turbopack/crates/turbo-tasks/src/invalidation.rs:211-243 | a reason with a kind: the first of its kind is a single entry appended at the end, the same reason again changes nothing, a different one turns the entry into both, and later ones join that entry; existing keys keep their place |
| Invalidation.InsertCounts | turbopack/crates/turbo-tasks/src/invalidation.rs:210-253 | one insertion adds an entry exactly for a reason without a kind or of a new kind |
| Invalidation.LenCountsEntries | turbopack/crates/turbo-tasks/src/invalidation.rs:203-262 | after inserting a sequence of reasons, `len` is the number of reasons without a kind plus the number of distinct kinds, not the number of reasons merged into them |
| Invalidation.InsertedReasonKept | turbopack/crates/turbo-tasks/src/invalidation.rs:211-243 | every inserted reason with a kind is described by its kind's entry |
| Invalidation.SeparatorSpelled | turbopack/crates/turbo-tasks/src/invalidation.rs:269-274 | the separator before the entry at `i` is ", " and then "and " before the last one |
| Invalidation.ListingExamples | turbopack/crates/turbo-tasks/src/invalidation.rs:265-286 | one, two and three entries are listed as "a", "a, and b" and "a, b, and c" |
| Invalidation.ListingEndsWithAnd | turbopack/crates/turbo-tasks/src/invalidation.rs:265-286 | a listing of two or more entries ends with ", and " and the last entry |
| Invalidation.EntryTexts | turbopack/crates/turbo-tasks/src/invalidation.rs:275-284 | the entries are described one by one, in insertion order |
| Invalidation.InvalidationReasonSet.constructor | turbopack/crates/turbo-tasks/src/invalidation.rs:200-207 | the default set is empty with the next tag 0 |
| Invalidation.InvalidationReasonSet.Insert | turbopack/crates/turbo-tasks/src/invalidation.rs:210-253 | `insert` changes the set to the inserted set and keeps the invariant |
| Invalidation.InvalidationReasonSet.IsEmpty | turbopack/crates/turbo-tasks/src/invalidation.rs:255-257 | the set is empty iff it has no entries |
| Invalidation.InvalidationReasonSet.Len | turbopack/crates/turbo-tasks/src/invalidation.rs:259-261 | `len` counts entries |
| Invalidation.InvalidationReasonSet.Fmt | turbopack/crates/turbo-tasks/src/invalidation.rs:264-287 | `Display` writes the entries' descriptions in insertion order, joined by the separators |
| Invalidation.EntryDescription | turbopack/crates/turbo-tasks/src/invalidation.rs:275-284 | a single reason is written as itself and several reasons by their kind's formatter |
| Invalidation.SameInvalidatorIgnoresRuntime | turbopack/crates/turbo-tasks/src/invalidation.rs:89-99 | invalidators are equal iff their tasks are, equal ones hash alike, and the runtime handle plays no part |
| Invalidation.WellFormed | turbopack/crates/turbo-tasks/src/invalidation.rs:198-207 | the invariant of `InvalidationReasonSet`: keys listed once in insertion order, untyped entries single with tags below the next tag, typed entries keyed by kind; `InsertWellFormed` proves `insert` keeps it |
| Invalidation.Put | turbopack/crates/turbo-tasks/src/invalidation.rs:210-253 | an insertion into the index map: a new key goes last, an existing key keeps its place; `PutKeysMatch` proves the key list stays the map's keys without repeats |
| Invalidation.Inserted | turbopack/crates/turbo-tasks/src/invalidation.rs:210-253 | `InvalidationReasonSet::insert`: an untyped reason is always added under a fresh tag, a typed reason is merged into the entry of its kind; `InsertWellFormed`, `UntypedAlwaysAdded`, `TypedMerged`, `InsertedReasonKept` and `InsertCounts` state it |
| Invalidation.MergedEntry | turbopack/crates/turbo-tasks/src/invalidation.rs:211-243 | the entry a typed reason joins: single when the kind is new, multiple with distinct reasons otherwise; `MergedEntryFits` proves it fits its key |
| Invalidation.InsertAll | turbopack/crates/turbo-tasks/src/invalidation.rs:210-253 | inserting reasons in order; `LenCountsEntries` proves `len` is the number of untyped reasons plus the number of distinct kinds |
| Invalidation.Separator | turbopack/crates/turbo-tasks/src/invalidation.rs:269-274 | the separator before entry `i`: none first, ", and " before the last, ", " elsewhere; `SeparatorSpelled` states it |
| Invalidation.Listing | turbopack/crates/turbo-tasks/src/invalidation.rs:265-286 | the first `n` entry texts with their separators; `ListingExamples` and `ListingEndsWithAnd` state its output |
| Invalidation.EntryText | turbopack/crates/turbo-tasks/src/invalidation.rs:275-284 | the description of one entry, a multiple entry by its kind; `EntryTexts` and `EntryDescription` state it |
| Invalidation.Describe | turbopack/crates/turbo-tasks/src/invalidation.rs:264-287 | the `Display` of the set; `InvalidationReasonSet.Fmt` returns it |
| Invalidation.SameInvalidator | turbopack/crates/turbo-tasks/src/invalidation.rs:89-99 | invalidators are equal when their tasks are; `SameInvalidatorIgnoresRuntime` proves the runtime handle does not matter |
| Invalidation.EntryReasons | turbopack/crates/turbo-tasks/src/invalidation.rs:211-243 | the reasons an entry holds, one or several; InsertedReasonKept proves every inserted reason is among those of its key |
| Invalidation.KeysMatch | turbopack/crates/turbo-tasks/src/invalidation.rs:198-207 | the insertion-ordered keys list every entry once; PutKeysMatch proves a put keeps this |
| Invalidation.EntryFits | turbopack/crates/turbo-tasks/src/invalidation.rs:211-251 | an untyped entry holds one reason under a tag already handed out, a typed one only reasons of its kind, several of them distinct; MergedEntryFits proves merging keeps this |
| Invalidation.Distinct | turbopack/crates/turbo-tasks/src/invalidation.rs:232-240 | no reason repeats in a multiple entry, part of the invariant InsertWellFormed preserves |
| Invalidation.PutKeysMatch | turbopack/crates/turbo-tasks/src/invalidation.rs:210-253 | a new key goes last and an existing key keeps its place, so the keys stay distinct and match the entries |
| Invalidation.MergedEntryFits | turbopack/crates/turbo-tasks/src/invalidation.rs:211-243 | merging a typed reason into the entry of its kind keeps the entry of that kind and its reasons distinct, with at least two in a multiple entry |
| Invalidation.CountUntyped | turbopack/crates/turbo-tasks/src/invalidation.rs:245-251 | the number of untyped reasons, which LenCountsEntries proves is the next tag and the number of untyped entries |
| Invalidation.Kinds | turbopack/crates/turbo-tasks/src/invalidation.rs:211-243 | the kinds of the typed reasons, which LenCountsEntries proves are exactly the typed keys |
| Invalidation.TypedKinds | turbopack/crates/turbo-tasks/src/invalidation.rs:211-243 | the kinds of the typed keys of a set |
| Invalidation.LenCountsStep | turbopack/crates/turbo-tasks/src/invalidation.rs:203-262 | inserting one more reason keeps the set well formed and the length one per untyped reason plus one per kind |
| Invalidation.KindsSnocCard | turbopack/crates/turbo-tasks/src/invalidation.rs:211-243 | one more reason adds a kind exactly when it is typed with a kind not seen before |
| Invalidation.KindsSnoc | turbopack/crates/turbo-tasks/src/invalidation.rs:211-243 | one more reason adds its kind, if any, to the kinds |
| Invalidation.InvalidationReasonSet.State | turbopack/crates/turbo-tasks/src/invalidation.rs:198-207 | the set's fields as a value, which every method's contract states in terms of |
| SstLayout.CompressionBufferCapacityBounds | turbopack/crates/turbo-persistence/src/static_sorted_file_builder.rs:149-158 | no sample buffer below 1 KiB of keys; otherwise a sixteenth of the key bytes, capped at 256 KiB |
| SstLayout.BigEndian | turbopack/crates/turbo-persistence/src/static_sorted_file_builder.rs:521-590 | the big-endian writers produce exactly `width` bytes |
| SstLayout.FromBigEndian | turbopack/crates/turbo-persistence/src/static_sorted_file_builder.rs:521-590 | a big-endian read of `k` bytes is below 256^k |
| SstLayout.BigEndianRoundTrip | turbopack/crates/turbo-persistence/src/static_sorted_file_builder.rs:521-590 | reading back a big-endian field gives the number written, when it fits in the width |
| SstLayout.FromBigEndianRoundTrip | turbopack/crates/turbo-persistence/src/static_sorted_file_builder.rs:521-590 | writing back a read field gives the same bytes |
| SstLayout.BigEndianZero | turbopack/crates/turbo-persistence/src/static_sorted_file_builder.rs:522-524 | the reserved slots, written as zero, are zero bytes |
| SstLayout.HeaderWord | turbopack/crates/turbo-persistence/src/static_sorted_file_builder.rs:542 | a key block slot, the position or-ed with the type shifted left by 24, is a 32-bit word |
| SstLayout.HeaderWordDecodes | turbopack/crates/turbo-persistence/src/static_sorted_file_builder.rs:542 | the slot keeps the position's low 24 bits, and for a position below 2^24 the type reads back from the top byte and the word is `type * 2^24 + pos` |
| SstLayout.Slots | turbopack/crates/turbo-persistence/src/static_sorted_file_builder.rs:538-543 | one 4-byte slot per entry |
| SstLayout.PutLayout | turbopack/crates/turbo-persistence/src/static_sorted_file_builder.rs:533-553 | putting an entry fills its reserved slot with its body offset and type and appends its bytes, giving the partial block of one more entry |
| SstLayout.KeyBlockPieces | turbopack/crates/turbo-persistence/src/static_sorted_file_builder.rs:504-600 | a complete key block is the type byte, the 24-bit entry count, the slots and the body |
| SstLayout.KeyBlockHeaderReadable | turbopack/crates/turbo-persistence/src/static_sorted_file_builder.rs:515-531 | a reader finds the key block type and the entry count in the first four bytes |
| SstLayout.KeyBlockSlotReadable | turbopack/crates/turbo-persistence/src/static_sorted_file_builder.rs:538-543 | a reader finds in entry `i`'s slot its type and its offset in the body |
| SstLayout.SlotDecodes | turbopack/crates/turbo-persistence/src/static_sorted_file_builder.rs:542-543 | a slot's four bytes decode to the offset and type written into them |
| SstLayout.KeyBlockEntryReadable | turbopack/crates/turbo-persistence/src/static_sorted_file_builder.rs:544-552 | at the offset in entry `i`'s slot (after the header and slots) a reader finds its hash, key and trailer |
| SstLayout.KeyBlockBuilder.constructor | turbopack/crates/turbo-persistence/src/static_sorted_file_builder.rs:515-531 | `new` writes the type byte, the 24-bit count and a zero slot per entry |
| SstLayout.KeyBlockBuilder.Put | turbopack/crates/turbo-persistence/src/static_sorted_file_builder.rs:533-594 | the common part of the puts fills the next slot and appends the hash, the key and the trailer |
| SstLayout.KeyBlockBuilder.PutSmall | turbopack/crates/turbo-persistence/src/static_sorted_file_builder.rs:533-553 | `put_small` records the value block, size and offset as the trailer |
| SstLayout.KeyBlockBuilder.PutMedium | turbopack/crates/turbo-persistence/src/static_sorted_file_builder.rs:555-567 | `put_medium` records the value's own block |
| SstLayout.KeyBlockBuilder.Delete | turbopack/crates/turbo-persistence/src/static_sorted_file_builder.rs:569-580 | `delete` records a tombstone with no trailer |
| SstLayout.KeyBlockBuilder.PutBlob | turbopack/crates/turbo-persistence/src/static_sorted_file_builder.rs:582-594 | `put_blob` records the blob file's number |
| SstLayout.KeyBlockBuilder.Finish | turbopack/crates/turbo-persistence/src/static_sorted_file_builder.rs:596-600 | once every slot is filled, the block is the complete layout of its entries |
| SstLayout.SmallTrailerReadable | turbopack/crates/turbo-persistence/src/static_sorted_file_builder.rs:547-549 | the small trailer is 8 bytes and reads back as block, size and offset |
| SstLayout.IndexEntries | turbopack/crates/turbo-persistence/src/static_sorted_file_builder.rs:621-625 | each index entry takes 10 bytes |
| SstLayout.IndexEntriesPrefix | turbopack/crates/turbo-persistence/src/static_sorted_file_builder.rs:621-625 | entry `k` is its 8-byte hash followed by its 2-byte block |
| SstLayout.IndexBlockReadable | turbopack/crates/turbo-persistence/src/static_sorted_file_builder.rs:602-630 | a reader finds the type byte, the first block, and entry `k`'s hash and block at offset 3 + 10k |
| SstLayout.IndexBlockBuilder.constructor | turbopack/crates/turbo-persistence/src/static_sorted_file_builder.rs:609-619 | `new` writes the type byte and the first block |
| SstLayout.IndexBlockBuilder.Put | turbopack/crates/turbo-persistence/src/static_sorted_file_builder.rs:621-625 | `put` appends a hash boundary and its key block |
| SstLayout.IndexBlockBuilder.Finish | turbopack/crates/turbo-persistence/src/static_sorted_file_builder.rs:627-630 | `finish` returns the index block's layout |
| SstLayout.CompressionBufferCapacity | turbopack/crates/turbo-persistence/src/static_sorted_file_builder.rs:149-156 | `get_compression_buffer_capacity`: zero below the minimum sample size, else a sixteenth of the key bytes capped at the sample size; its bounds are stated by CompressionBufferCapacityBounds |
| SstLayout.Zeros | turbopack/crates/turbo-persistence/src/static_sorted_file_builder.rs:522-524 | the reserved slots: exactly `n` bytes, each zero |
| SstLayout.BitOr | turbopack/crates/turbo-persistence/src/static_sorted_file_builder.rs:542 | the bitwise or of the slot word, on the low `bits` bits: the result fits in `bits` bits; or with zero keeps the other side (BitOrZero) |
| SstLayout.BitOrZero | turbopack/crates/turbo-persistence/src/static_sorted_file_builder.rs:542 | or-ing a zero position byte with the entry type yields the entry type unchanged |
| SstLayout.SlotPosition | turbopack/crates/turbo-persistence/src/static_sorted_file_builder.rs:542 | the reader's view of a slot's low 24 bits; HeaderWordDecodes states it gives back the position |
| SstLayout.SlotType | turbopack/crates/turbo-persistence/src/static_sorted_file_builder.rs:542 | the reader's view of a slot's top byte; HeaderWordDecodes states it gives back the entry type |
| SstLayout.RecordBytes | turbopack/crates/turbo-persistence/src/static_sorted_file_builder.rs:544-552 | one entry's bytes (hash, key, trailer); KeyBlockEntryReadable states they are found at the slot's offset |
| SstLayout.Body | turbopack/crates/turbo-persistence/src/static_sorted_file_builder.rs:533-594 | the entries' bytes after the header in put order; PrefixLayout and EntryLayout state where each entry lies |
| SstLayout.PartialKeyBlock | turbopack/crates/turbo-persistence/src/static_sorted_file_builder.rs:515-594 | the buffer of a key block under construction; PutLayout states each put fills one slot and appends one entry |
| SstLayout.KeyBlockBytes | turbopack/crates/turbo-persistence/src/static_sorted_file_builder.rs:504-600 | the finished key block; KeyBlockPieces, KeyBlockHeaderReadable, KeyBlockSlotReadable and KeyBlockEntryReadable state how a reader parses it |
| SstLayout.PrefixLayout | turbopack/crates/turbo-persistence/src/static_sorted_file_builder.rs:533-594 | the slots and body written for the first `j` entries are prefixes of those for all entries: later puts never rewrite earlier bytes |
| SstLayout.PartialSplit | turbopack/crates/turbo-persistence/src/static_sorted_file_builder.rs:538-543 | a block under construction is the header, the filled slots, the next zero slot, the remaining zero slots and the body |
| SstLayout.SnocPieces | turbopack/crates/turbo-persistence/src/static_sorted_file_builder.rs:533-552 | one more entry adds exactly one slot, holding the old body length and its type, and appends exactly its bytes |
| SstLayout.EntryLayout | turbopack/crates/turbo-persistence/src/static_sorted_file_builder.rs:538-552 | entry `i`'s slot holds the body offset at which its bytes start, and those bytes are its hash, key and trailer |
| SstLayout.SmallTrailer | turbopack/crates/turbo-persistence/src/static_sorted_file_builder.rs:547-549 | the small-value trailer: block as u16, size as u16, offset as u32; SmallTrailerReadable states it reads back |
| SstLayout.IndexBlockBytes | turbopack/crates/turbo-persistence/src/static_sorted_file_builder.rs:602-630 | the finished index block; IndexBlockReadable states a reader finds the type byte, the first block and every pair |
| SstBuilder.Offsets | turbopack/crates/turbo-persistence/src/static_sorted_file_builder.rs:207-314 | the writer records one end offset per block |
| SstBuilder.LastOffsetIsLength | turbopack/crates/turbo-persistence/src/static_sorted_file_builder.rs:260-301 | the last recorded offset is the number of bytes the blocks take in the file |
| SstBuilder.OffsetsPrefix | turbopack/crates/turbo-persistence/src/static_sorted_file_builder.rs:260-301 | appending blocks leaves the earlier offsets and bytes as they were |
| SstBuilder.BlockLocated | turbopack/crates/turbo-persistence/src/static_sorted_file_builder.rs:260-301 | block `i` lies between the previous block's offset and its own: its 4-byte uncompressed size, then its stored bytes |
| SstBuilder.BlockWriter.constructor | turbopack/crates/turbo-persistence/src/static_sorted_file_builder.rs:214-220 | a new writer has written no block and recorded no offset |
| SstBuilder.BlockWriter.NextBlockIndex | turbopack/crates/turbo-persistence/src/static_sorted_file_builder.rs:222-227 | the next block index is the number of blocks so far, and fails with "Block index overflow" iff that does not fit a u16 |
| SstBuilder.BlockWriter.BlockCount | turbopack/crates/turbo-persistence/src/static_sorted_file_builder.rs:229-235 | the block count is the number of blocks, and fails with "Block count overflow" iff that does not fit a u16 |
| SstBuilder.BlockWriter.Append | turbopack/crates/turbo-persistence/src/static_sorted_file_builder.rs:270-281 | a block is written as its size and stored bytes, and its end offset is recorded |
| SstBuilder.BlockWriter.WriteBlock | turbopack/crates/turbo-persistence/src/static_sorted_file_builder.rs:237-281 | `write_block` compresses the block and appends it; a size that does not fit a u32 fails the conversion and an end offset past u32 fails with "Block offset overflow", each leaving the writer unchanged |
| SstBuilder.BlockWriter.WriteCompressedBlock | turbopack/crates/turbo-persistence/src/static_sorted_file_builder.rs:283-302 | a block compressed beforehand is stored as is with the given uncompressed size, with the same overflow failures |
| SstBuilder.OffsetsIncrease | turbopack/crates/turbo-persistence/src/static_sorted_file_builder.rs:260-301 | block offsets grow by at least 4 per block, so they strictly increase |
| SstBuilder.SmallBytesAt | turbopack/crates/turbo-persistence/src/static_sorted_file_builder.rs:334-339 | a small value sits in its block at the total length of the small values before it, which is the offset recorded for it |
| SstBuilder.GatherSmallValues | turbopack/crates/turbo-persistence/src/static_sorted_file_builder.rs:333-339 | the buffer gathers the small values of the block's entries, and their locations point at the block about to be written |
| SstBuilder.FlushedLocated | turbopack/crates/turbo-persistence/src/static_sorted_file_builder.rs:332-340 | once the block is written at that index, every gathered entry is located |
| SstBuilder.FlushedFits | turbopack/crates/turbo-persistence/src/static_sorted_file_builder.rs:329-331 | small-value blocks stay within 64 KiB when the new one does |
| SstBuilder.FlushSmallBlock | turbopack/crates/turbo-persistence/src/static_sorted_file_builder.rs:332-344 | flushing writes the gathered small values as one block and locates every entry before it |
| SstBuilder.SmallStep | turbopack/crates/turbo-persistence/src/static_sorted_file_builder.rs:346-348 | a small value is given the block's size so far as its offset |
| SstBuilder.OwnBlockStep | turbopack/crates/turbo-persistence/src/static_sorted_file_builder.rs:350-365 | a value that is not small does not disturb the block being filled |
| SstBuilder.PlaceSmall | turbopack/crates/turbo-persistence/src/static_sorted_file_builder.rs:328-349 | one small value: the block being filled is flushed first if the value would take it past 64 KiB or the count limit is reached |
| SstBuilder.EmptyFilling | turbopack/crates/turbo-persistence/src/static_sorted_file_builder.rs:342-344 | after a flush the block being filled is empty |
| SstBuilder.AddSmall | turbopack/crates/turbo-persistence/src/static_sorted_file_builder.rs:346-348 | appending a small value that fits keeps the block being filled consistent |
| SstBuilder.WriteOwnBlock | turbopack/crates/turbo-persistence/src/static_sorted_file_builder.rs:350-365 | a medium value is written as a block of its own and located at offset 0 of it; a blob or a tombstone gets (0, 0) |
| SstBuilder.PlaceOther | turbopack/crates/turbo-persistence/src/static_sorted_file_builder.rs:350-365 | one entry that is not small keeps the block being filled as it is |
| SstBuilder.WriteValueBlocks | turbopack/crates/turbo-persistence/src/static_sorted_file_builder.rs:316-382 | `write_value_blocks` returns one location per entry, every value sits at its location, and small-value blocks stay within 64 KiB when every small value does |
| SstBuilder.PlaceValue | turbopack/crates/turbo-persistence/src/static_sorted_file_builder.rs:327-366 | one entry of the loop, by its kind of value |
| SstBuilder.FlushLast | turbopack/crates/turbo-persistence/src/static_sorted_file_builder.rs:368-379 | after the loop the block being filled is written iff it holds a value, so every entry is located |
| SstBuilder.Records | turbopack/crates/turbo-persistence/src/static_sorted_file_builder.rs:401-425 | one key record per entry of a key block |
| SstBuilder.AddEntryToBlock | turbopack/crates/turbo-persistence/src/static_sorted_file_builder.rs:401-425 | `add_entry_to_block` adds the entry's record by its kind of value, and fails iff a small value's size does not fit a u16 |
| SstBuilder.BuildKeyBlock | turbopack/crates/turbo-persistence/src/static_sorted_file_builder.rs:446-456 | a key block is the layout of its entries' records; it fails for 2^24 entries or more, or a small value too large |
| SstBuilder.WriteKeyBlock | turbopack/crates/turbo-persistence/src/static_sorted_file_builder.rs:446-461 | a key block is written with the key dictionary at the next block index, which must fit a u16 |
| SstBuilder.KeySizePositive | turbopack/crates/turbo-persistence/src/static_sorted_file_builder.rs:462 | each entry adds its key length plus 8 bytes to the running block size |
| SstBuilder.SplitsClose | turbopack/crates/turbo-persistence/src/static_sorted_file_builder.rs:439-461 | closing the current block before entry `i` keeps the split well formed |
| SstBuilder.SplitsContinue | turbopack/crates/turbo-persistence/src/static_sorted_file_builder.rs:462-463 | keeping entry `i` in the current block keeps the split well formed |
| SstBuilder.SplitsAgree | turbopack/crates/turbo-persistence/src/static_sorted_file_builder.rs:426-481 | two splits of the same entries agree block by block |
| SstBuilder.SplitsUnique | turbopack/crates/turbo-persistence/src/static_sorted_file_builder.rs:426-481 | the split into key blocks is determined by the entries |
| SstBuilder.SplitsNotShorter | turbopack/crates/turbo-persistence/src/static_sorted_file_builder.rs:426-481 | a split that agrees with another on their common blocks has at least as many blocks |
| SstBuilder.CutAfter | turbopack/crates/turbo-persistence/src/static_sorted_file_builder.rs:439-445 | each block boundary is an entry that closes the previous block |
| SstBuilder.BlocksBounded | turbopack/crates/turbo-persistence/src/static_sorted_file_builder.rs:439-445 | without hash collisions and with keys that fit a block, every key block stays within 16 KiB and the entry limit |
| SstBuilder.BoundaryHashesIncrease | turbopack/crates/turbo-persistence/src/static_sorted_file_builder.rs:439-445 | with sorted hashes each key block starts at a strictly larger hash than the one before, so the index lists increasing hashes |
| SstBuilder.KeysWrittenStep | turbopack/crates/turbo-persistence/src/static_sorted_file_builder.rs:446-461 | writing the block that ends before entry `i` records its first hash and index |
| SstBuilder.KeysWrittenLast | turbopack/crates/turbo-persistence/src/static_sorted_file_builder.rs:467-481 | the last block is written and recorded the same way |
| SstBuilder.ShouldClose | turbopack/crates/turbo-persistence/src/static_sorted_file_builder.rs:439-445 | the loop's running size and last hash decide exactly the closing rule: the block is not empty, the entry would take it past 16 KiB or the entry limit, and its hash differs from the last one |
| SstBuilder.SplitStep | turbopack/crates/turbo-persistence/src/static_sorted_file_builder.rs:429-464 | one entry of the split loop |
| SstBuilder.WriteKeyBlocksSplit | turbopack/crates/turbo-persistence/src/static_sorted_file_builder.rs:426-481 | the key blocks are written for the unique split, one per block, each with its first hash and index recorded; no entries give no block |
| SstBuilder.KeysWrittenKept | turbopack/crates/turbo-persistence/src/static_sorted_file_builder.rs:426-481 | later blocks keep the key blocks written |
| SstBuilder.WriteIndexBlock | turbopack/crates/turbo-persistence/src/static_sorted_file_builder.rs:484-498 | the index block lists the first key block and then each later block's first hash and index; it fails with "Index entries count overflow" for 2^16 blocks or more, and without a key block |
| SstBuilder.WriteKeyBlocks | turbopack/crates/turbo-persistence/src/static_sorted_file_builder.rs:387-501 | the key blocks of the split followed by the index block over them; no entries fail |
| SstBuilder.Encoded | turbopack/crates/turbo-persistence/src/static_sorted_file_builder.rs:260-301 | the file's block section: each block as its 4-byte size and its stored bytes; LastOffsetIsLength and BlockLocated state where each block lies in it |
| SstBuilder.SmallBytes | turbopack/crates/turbo-persistence/src/static_sorted_file_builder.rs:333-339 | the bytes a small-value block gathers, in entry order; SmallBytesAt states each value sits at the length of those before it |
| SstBuilder.SmallCount | turbopack/crates/turbo-persistence/src/static_sorted_file_builder.rs:346-348 | `current_block_count`: the small values in the block being filled; NoSmallValues states a zero count means none |
| SstBuilder.NoSmallValues | turbopack/crates/turbo-persistence/src/static_sorted_file_builder.rs:368-379 | a block being filled with a zero count holds no small value, so skipping the final flush loses nothing |
| SstBuilder.Located | turbopack/crates/turbo-persistence/src/static_sorted_file_builder.rs:327-365 | where each kind of value is put: a small one inside a small-value block, a medium one alone at offset 0, a compressed one stored as given, blobs and tombstones at (0, 0) |
| SstBuilder.AllLocated | turbopack/crates/turbo-persistence/src/static_sorted_file_builder.rs:316-381 | every entry in a range is located; WriteValueBlocks ensures it for all entries |
| SstBuilder.Pending | turbopack/crates/turbo-persistence/src/static_sorted_file_builder.rs:346-348 | the entries of the block being filled have their offset in it but not yet their block index |
| SstBuilder.LocatedKept | turbopack/crates/turbo-persistence/src/static_sorted_file_builder.rs:316-380 | writing further blocks never moves an entry already located |
| SstBuilder.Filling | turbopack/crates/turbo-persistence/src/static_sorted_file_builder.rs:323-366 | the loop state of `write_value_blocks`, kept by PlaceSmall and PlaceOther |
| SstBuilder.RecordOf | turbopack/crates/turbo-persistence/src/static_sorted_file_builder.rs:401-425 | the key record of each kind of value: the small trailer, the medium block, the blob number or nothing; AddEntryToBlock ensures it is what is added |
| SstBuilder.IsKeyBlock | turbopack/crates/turbo-persistence/src/static_sorted_file_builder.rs:446-456 | a written key block holds exactly the layout of its entries' records; WriteKeyBlock ensures it |
| SstBuilder.KeySize | turbopack/crates/turbo-persistence/src/static_sorted_file_builder.rs:462 | `current_block_size`: each key's length plus 8; KeySizePositive states a block with entries is not empty |
| SstBuilder.Closes | turbopack/crates/turbo-persistence/src/static_sorted_file_builder.rs:439-445 | the closing test: the block holds an entry, is full by size or count, and the hash differs from the last; ShouldClose states the loop's test is exactly this |
| SstBuilder.Splits | turbopack/crates/turbo-persistence/src/static_sorted_file_builder.rs:426-464 | the block starts the loop produces: each block is closed at its end and at no entry before; SplitsUnique states there is only one such split |
| SstBuilder.FirstClose | turbopack/crates/turbo-persistence/src/static_sorted_file_builder.rs:439-445 | a block closes at the first entry that closes it and not later |
| SstBuilder.BoundedUpTo | turbopack/crates/turbo-persistence/src/static_sorted_file_builder.rs:439-445 | without collisions, a block not yet closed stays within 16 KiB and the entry limit |
| SstBuilder.KeysWritten | turbopack/crates/turbo-persistence/src/static_sorted_file_builder.rs:446-461 | each written key block holds its entries' records and its boundary is its first hash and block index; KeysWrittenStep and KeysWrittenLast keep it |
| SstBuilder.BlockStart | turbopack/crates/turbo-persistence/src/static_sorted_file_builder.rs:260-301 | where block `i` begins: 0 for the first block, else the end offset recorded for the block before; BlockLocated states the block's size and stored bytes lie from there to its own offset |
| SstBuilder.LastOffset | turbopack/crates/turbo-persistence/src/static_sorted_file_builder.rs:260-301 | the end offset of the last block written, 0 before the first; LastOffsetIsLength states it is the length of the block bytes |
| SstBuilder.BlockEnd | turbopack/crates/turbo-persistence/src/static_sorted_file_builder.rs:426-481 | where key block `k` of a split ends: at the next block's first entry, or after the last entry; Splits and SplitsUnique are stated with it |
| SstFile.PickedSnoc | turbopack/crates/turbo-persistence/src/static_sorted_file_builder.rs:179-194 | taking one more window of a key adds its bytes to the samples and its size to the sizes |
| SstFile.SampledSnoc | turbopack/crates/turbo-persistence/src/static_sorted_file_builder.rs:179-194 | one more window keeps the samples well formed: the samples are the picked windows, within the budget, and the sizes add up to their length |
| SstFile.SampleKey | turbopack/crates/turbo-persistence/src/static_sorted_file_builder.rs:174-194 | one loop body: the samples and sizes become SampleStep of the entry's key, and the recorded window is StepPicks (from offset 0 for a whole key, else at the bytes sampled so far modulo the bytes the window leaves out); the samples stay well formed |
| SstFile.Window | turbopack/crates/turbo-persistence/src/static_sorted_file_builder.rs:190 | the window offset lies within the part of the key the window can start in |
| SstFile.SampleKeys | turbopack/crates/turbo-persistence/src/static_sorted_file_builder.rs:168-196 | the samples are exactly SampleLoop from iteration 0 with the buffer capacity as budget and twice a hundredth of the key bytes as iterations; with every key at least 16 bytes, sample k comes from entry k mod the entry count; a division by zero exactly when there are no entries |
| SstFile.SampleStep | turbopack/crates/turbo-persistence/src/static_sorted_file_builder.rs:175-194 | one loop step: a key under 16 bytes adds nothing, otherwise exactly one sample of the key, its length capped by the remaining budget and the 100-byte share; the bytes only grow and stay within the budget |
| SstFile.StepPicks | turbopack/crates/turbo-persistence/src/static_sorted_file_builder.rs:180-193 | the window one step records: the whole key from offset 0 when it fits, else the window at `buffer.len() % (len - used_len)` |
| SstFile.StepSampled | turbopack/crates/turbo-persistence/src/static_sorted_file_builder.rs:180-193 | the step's bytes are exactly the recorded window of the entry's key, so the samples stay well formed |
| SstFile.WholeKeySampled | turbopack/crates/turbo-persistence/src/static_sorted_file_builder.rs:182-184 | a key that fits the share is appended whole and recorded from offset 0 |
| SstFile.WindowSampled | turbopack/crates/turbo-persistence/src/static_sorted_file_builder.rs:185-192 | a longer key appends the window starting at the bytes sampled so far modulo the bytes the window leaves out |
| SstFile.SampleLoop | turbopack/crates/turbo-persistence/src/static_sorted_file_builder.rs:173-195 | the loop from iteration i: entry i mod the entry count, ending after the last iteration or as soon as fewer than 16 bytes of budget remain; earlier samples are kept and the budget is never exceeded |
| SstFile.SampleLoopUnfold | turbopack/crates/turbo-persistence/src/static_sorted_file_builder.rs:173-178 | the loop stops at the last iteration or with under 16 bytes of budget left, and otherwise goes on after the step on entry i mod the entry count |
| SstFile.SampleLoopLongKeys | turbopack/crates/turbo-persistence/src/static_sorted_file_builder.rs:173-195 | with every key at least 100 bytes long, the loop ends with under 16 bytes of budget left or takes one sample in each remaining iteration |
| SstFile.SampleRounds | turbopack/crates/turbo-persistence/src/static_sorted_file_builder.rs:173-195 | the `for` loop over a non-empty entry list computes SampleLoop from iteration 0, keeps the samples well formed, and with every key at least 16 bytes takes the entries in turn |
| SstFile.RoundRobinSnoc | turbopack/crates/turbo-persistence/src/static_sorted_file_builder.rs:173-174 | taking entry n mod the entry count as the n-th sample keeps the samples round-robin |
| SstFile.RoundRobin | turbopack/crates/turbo-persistence/src/static_sorted_file_builder.rs:173-174 | sample k comes from entry k mod the entry count; SampleKeys establishes it when every key is sampled |
| SstFile.ComputeKeyDictionary | turbopack/crates/turbo-persistence/src/static_sorted_file_builder.rs:160-205 | no dictionary below 1 KiB of keys; otherwise the keys are sampled and a dictionary is trained only from more than 1 KiB of samples in more than five pieces |
| SstFile.OffsetTable | turbopack/crates/turbo-persistence/src/static_sorted_file_builder.rs:132-135 | the offset table takes four bytes per block |
| SstFile.OffsetTableReadable | turbopack/crates/turbo-persistence/src/static_sorted_file_builder.rs:132-135 | a reader finds block `k`'s offset in bytes `4k` to `4k + 4` of the table |
| SstFile.WriteOffsets | turbopack/crates/turbo-persistence/src/static_sorted_file_builder.rs:132-135 | the loop appends the offset table to the file |
| SstFile.HashesBounded | turbopack/crates/turbo-persistence/src/static_sorted_file_builder.rs:118-129 | with sorted hashes the metadata's minimum and maximum bound every key's hash; with no entries the minimum exceeds the maximum |
| SstFile.LocationsFit | turbopack/crates/turbo-persistence/src/static_sorted_file_builder.rs:321-346 | every value location fits its (u16, u32) pair |
| SstFile.WriteBlocks | turbopack/crates/turbo-persistence/src/static_sorted_file_builder.rs:112-128 | the value blocks are written, then the key blocks and the index block; no entries fail |
| SstFile.WriteStaticSortedFile | turbopack/crates/turbo-persistence/src/static_sorted_file_builder.rs:95-147 | the file is the key dictionary, the blocks and the offset table, and the metadata records the dictionary length, the block count, the file size and the entry count |
| SstFile.Sum | turbopack/crates/turbo-persistence/src/static_sorted_file_builder.rs:179-194 | the total size of the samples, which Sampled keeps equal to their length and within the budget |
| SstFile.PicksInKeys | turbopack/crates/turbo-persistence/src/static_sorted_file_builder.rs:179-194 | each sample is a window inside the key it was taken from; PickedSnoc proves a window inside a key extends it |
| SstFile.Picked | turbopack/crates/turbo-persistence/src/static_sorted_file_builder.rs:179-194 | the sampled windows laid end to end; PickedSnoc proves one more window appends its bytes |
| SstFile.Sampled | turbopack/crates/turbo-persistence/src/static_sorted_file_builder.rs:174-194 | the samples are the picked windows, each of 16 to 100 bytes, within the budget; SampledSnoc and SampleKeys keep it |
| SstFile.MinHash | turbopack/crates/turbo-persistence/src/static_sorted_file_builder.rs:118 | the first entry's hash, or u64::MAX with no entries; HashesBounded proves it bounds every hash from below |
| SstFile.MaxHash | turbopack/crates/turbo-persistence/src/static_sorted_file_builder.rs:128 | the last entry's hash, or 0 with no entries; HashesBounded proves it bounds every hash from above |
| SstFile.BlocksHold | turbopack/crates/turbo-persistence/src/static_sorted_file_builder.rs:112-128 | the value blocks, then the key blocks of the split, then the index block over them, which WriteBlocks establishes |
| SstFile.IsFile | turbopack/crates/turbo-persistence/src/static_sorted_file_builder.rs:95-147 | the file is the dictionary, the blocks and the offset table, which WriteStaticSortedFile establishes |
| Resolve.PutSpec | turbopack/crates/turbopack-core/src/resolve/mod.rs:704-710 | inserting a condition into a key's `BTreeMap` keeps the names in order, gives the name the new value and leaves every other name's value unchanged |
| Resolve.KeyText | turbopack/crates/turbopack-core/src/resolve/mod.rs:437-456 | a key displays as its request or "<default>", followed, when there are conditions, by " (", the conditions as "name=value" joined by ", ", and ")" |
| Resolve.KeyTextPlain | turbopack/crates/turbopack-core/src/resolve/mod.rs:437-444 | a key without conditions displays as exactly its request, or as "<default>" when it has none |
| Resolve.KeyTextConditions | turbopack/crates/turbopack-core/src/resolve/mod.rs:445-453 | a key with conditions displays as its plain text followed by " (" and ends with ")" |
| Resolve.IndexMapInsertSpec | turbopack/crates/turbopack-core/src/resolve/mod.rs:733-740 | inserting into the builder's index map gives the key the new item, keeps every other key's item, keeps keys distinct and appends a new key |
| Resolve.CollectSpec | turbopack/crates/turbopack-core/src/resolve/mod.rs:733-740 | collecting a result into a builder gives distinct keys, each with the item of its last entry, and is empty only for no entries |
| Resolve.CollectDistinct | turbopack/crates/turbopack-core/src/resolve/mod.rs:733-740 | a result whose keys are already distinct is collected unchanged |
| Resolve.MergeKeysPrefix | turbopack/crates/turbopack-core/src/resolve/mod.rs:742-747 | merging alternatives keeps the builder's existing entries in front |
| Resolve.MergeKeysDistinct | turbopack/crates/turbopack-core/src/resolve/mod.rs:742-747 | merging alternatives keeps the keys distinct |
| Resolve.MergeKeysItem | turbopack/crates/turbopack-core/src/resolve/mod.rs:742-747 | after merging, a key keeps its existing item and a new key takes the first item the other result has for it |
| Resolve.MergeKeysEmpty | turbopack/crates/turbopack-core/src/resolve/mod.rs:742-747 | a merge has no entries only when both sides have none |
| Resolve.ResolveResultBuilder.MergeAlternatives | turbopack/crates/turbopack-core/src/resolve/mod.rs:742-760 | adds the other result's entries with new keys in order, keeps keys distinct, and appends the other's affecting sources that were not among the builder's original ones |
| Resolve.ResolveResultBuilder.Build | turbopack/crates/turbopack-core/src/resolve/mod.rs:725-731 | the built result holds the builder's entries and sources |
| Resolve.MergeAllItem | turbopack/crates/turbopack-core/src/resolve/mod.rs:794-811 | in a merge of several alternatives a key of the first result keeps that result's last item, and any other key takes the item of the first later result that has it |
| Resolve.MergeAllDistinct | turbopack/crates/turbopack-core/src/resolve/mod.rs:794-811 | a merge of alternatives has each key once |
| Resolve.MergeResultsUnresolvable | turbopack/crates/turbopack-core/src/resolve/mod.rs:1380-1386 | merging results is unresolvable exactly when every result is |
| Resolve.Alternatives | turbopack/crates/turbopack-core/src/resolve/mod.rs:794-811 | one result is returned as it is, none gives unresolvable, more are merged into the first one's builder in order |
| Resolve.WithAffectingSources | turbopack/crates/turbopack-core/src/resolve/mod.rs:777-792 | keeps the entries and appends the sources after the existing ones |
| Resolve.MergeResultsWithSources | turbopack/crates/turbopack-core/src/resolve/mod.rs:1388-1407 | has the entries of the plain merge and its sources followed by the given ones, in every case of the number of results |
| Resolve.WithRequest | turbopack/crates/turbopack-core/src/resolve/mod.rs:684-702 | every key takes the request and keeps its conditions; items, order and sources are kept |
| Resolve.WithRequestTwice | turbopack/crates/turbopack-core/src/resolve/mod.rs:978-995 | setting the request twice is setting the second, and setting it keeps a result unresolvable or not |
| Resolve.RequestRest | turbopack/crates/turbopack-core/src/resolve/mod.rs:891 | a key has a rest exactly when it has a request starting with the prefix, and the request is the prefix followed by the rest |
| Resolve.WithStrippedRequestKeyPrefix | turbopack/crates/turbopack-core/src/resolve/mod.rs:916-936 | the result holds the stripped entries, is no longer than the original and keeps the sources |
| Resolve.WithReplacedRequestKey | turbopack/crates/turbopack-core/src/resolve/mod.rs:883-910 | the result holds as many entries as stripping the old prefix keeps, and keeps the sources |
| Resolve.StripSound | turbopack/crates/turbopack-core/src/resolve/mod.rs:920-930 | every stripped entry comes from an entry with the same conditions and item whose request was the prefix followed by the stripped request |
| Resolve.StripComplete | turbopack/crates/turbopack-core/src/resolve/mod.rs:920-930 | every entry whose request starts with the prefix appears stripped |
| Resolve.ReplaceIsStrip | turbopack/crates/turbopack-core/src/resolve/mod.rs:889-906 | replacing the prefix is stripping it, then putting the new key's request, if any, in front of the rest and its conditions in place |
| Resolve.StripTwice | turbopack/crates/turbopack-core/src/resolve/mod.rs:916-936 | stripping one prefix and then another is stripping the two concatenated |
| Resolve.StripNothing | turbopack/crates/turbopack-core/src/resolve/mod.rs:916-936 | stripping the empty prefix keeps exactly the entries when every key has a request |
| Resolve.PutAllSpec | turbopack/crates/turbopack-core/src/resolve/mod.rs:704-710 | after inserting a list of conditions a name has its last value in the list, or its old value when unlisted, and names stay in order |
| Resolve.AddConditions | turbopack/crates/turbopack-core/src/resolve/mod.rs:704-717 | every condition is inserted into every key in order, then keys that became equal are merged, each in its first place with its last item; sources are kept |
| Resolve.AddConditionTo | turbopack/crates/turbopack-core/src/resolve/mod.rs:706-710 | the inner loop inserts the condition into every key and keeps the items |
| Resolve.CollectEntries | turbopack/crates/turbopack-core/src/resolve/mod.rs:711-716 | the deduplication collects the entries one insertion at a time |
| Resolve.WithConditionsEach | turbopack/crates/turbopack-core/src/resolve/mod.rs:704-710 | each key gets every condition inserted in order, its request and item unchanged |
| Resolve.AddConditionsSpec | turbopack/crates/turbopack-core/src/resolve/mod.rs:704-717 | after adding conditions the keys are distinct and each has every added condition with its last value |
| Resolve.AddNoConditions | turbopack/crates/turbopack-core/src/resolve/mod.rs:711-716 | adding no conditions to distinct keys changes nothing |
| Resolve.ResolvePackageInternal | turbopack/crates/turbopack-core/src/resolve/mod.rs:2979-3004 | "#", a specifier starting with "#/" or ending with "/" is unresolvable, so is a package without an imports field; otherwise the imports field decides |
| Resolve.ResolveResultBuilder.constructor | turbopack/crates/turbopack-core/src/resolve/mod.rs:733-740 | the builder holds the result's items collected into its map, keyed as in the result, and the result's affecting sources |
| Resolve.SortedNames | turbopack/crates/turbopack-core/src/resolve/mod.rs:432-435 | the names of a key's conditions in ascending order, as a BTreeMap keeps them; PutSorted shows an insertion preserves it |
| Resolve.Lookup | turbopack/crates/turbopack-core/src/resolve/mod.rs:432-435 | the value stored for a condition name; PutLookup states how an insertion changes it |
| Resolve.Put | turbopack/crates/turbopack-core/src/resolve/mod.rs:704-710 | BTreeMap insertion of one condition; PutFrom, PutLookup, PutSorted and PutSpec state what it holds and keeps |
| Resolve.PutFrom | turbopack/crates/turbopack-core/src/resolve/mod.rs:704-710 | an insertion holds the new pair and otherwise only pairs of the old conditions |
| Resolve.PutLookup | turbopack/crates/turbopack-core/src/resolve/mod.rs:704-710 | after an insertion the name has the new value and every other name keeps its own |
| Resolve.PutSorted | turbopack/crates/turbopack-core/src/resolve/mod.rs:704-710 | an insertion keeps the condition names in order |
| Resolve.NotBeforeFirst | turbopack/crates/turbopack-core/src/resolve/mod.rs:432-435 | a name ordered before the first name of sorted conditions is not among them |
| Resolve.ConditionTexts | turbopack/crates/turbopack-core/src/resolve/mod.rs:445-453 | one "name=value" text per condition, in the map's order |
| Resolve.Unresolvable | turbopack/crates/turbopack-core/src/resolve/mod.rs:532-538 | the result with no entries and no affecting sources; MergeResultsUnresolvable and ResolvePackageInternal use it as the unresolvable answer |
| Resolve.IsUnresolvable | turbopack/crates/turbopack-core/src/resolve/mod.rs:612-614 | a result is unresolvable exactly when it has no entries; MergeResultsUnresolvable and ResolvePackageInternal state when that happens |
| Resolve.DistinctKeys | turbopack/crates/turbopack-core/src/resolve/mod.rs:720-723 | no two entries share a key, as in an index map; IndexMapInsertSpec, CollectSpec and MergeKeysDistinct show the builder keeps it |
| Resolve.ItemOf | turbopack/crates/turbopack-core/src/resolve/mod.rs:720-723 | the item stored for a key; ItemOfNone states when there is none |
| Resolve.ItemOfNone | turbopack/crates/turbopack-core/src/resolve/mod.rs:720-723 | a key has no item exactly when no entry has that key |
| Resolve.ItemOfSnoc | turbopack/crates/turbopack-core/src/resolve/mod.rs:720-723 | appending an entry gives a key its item only when it had none before |
| Resolve.LastItemOf | turbopack/crates/turbopack-core/src/resolve/mod.rs:733-740 | the item the last entry with a key carries, the one collecting into an index map keeps; LastItemOfSome ties it to ItemOf |
| Resolve.LastItemOfSome | turbopack/crates/turbopack-core/src/resolve/mod.rs:733-740 | a key has a last item exactly when it has a first one |
| Resolve.DistinctCons | turbopack/crates/turbopack-core/src/resolve/mod.rs:720-723 | putting an entry with a new key before distinct entries keeps them distinct |
| Resolve.DistinctSnoc | turbopack/crates/turbopack-core/src/resolve/mod.rs:720-723 | appending an entry with a new key after distinct entries keeps them distinct |
| Resolve.DistinctTail | turbopack/crates/turbopack-core/src/resolve/mod.rs:720-723 | the tail of distinct entries is distinct and lacks the first key |
| Resolve.IndexMapInsert | turbopack/crates/turbopack-core/src/resolve/mod.rs:742-747 | an index map insertion: an existing key keeps its place and takes the new item, a new key goes last; IndexMapInsertSpec states it |
| Resolve.Collect | turbopack/crates/turbopack-core/src/resolve/mod.rs:733-740 | collecting entries into an index map; CollectSpec states the keys are distinct, each with its last item, and CollectDistinct that distinct entries are kept as they are |
| Resolve.MergeKeys | turbopack/crates/turbopack-core/src/resolve/mod.rs:742-747 | the entries after merging alternatives; MergeKeysPrefix, MergeKeysDistinct, MergeKeysItem and MergeKeysEmpty state what it keeps and adds |
| Resolve.NotAmong | turbopack/crates/turbopack-core/src/resolve/mod.rs:748-758 | the other result's sources not already present, in order: every one kept is new, and every new one is kept |
| Resolve.NotAmongSnoc | turbopack/crates/turbopack-core/src/resolve/mod.rs:748-758 | filtering one more source adds it exactly when it is not already present |
| Resolve.MergeAll | turbopack/crates/turbopack-core/src/resolve/mod.rs:794-811 | the first result's builder with every later result merged in; MergeAllItem, MergeAllDistinct and MergeAllEmpty state it |
| Resolve.MergeResults | turbopack/crates/turbopack-core/src/resolve/mod.rs:1380-1386 | no result is unresolvable, one is itself, more are merged; MergeResultsUnresolvable and Alternatives state it |
| Resolve.FirstIn | turbopack/crates/turbopack-core/src/resolve/mod.rs:794-811 | the item of a key in the first result that has it; MergeAllItem shows a merge of alternatives gives that item |
| Resolve.FirstInSnoc | turbopack/crates/turbopack-core/src/resolve/mod.rs:794-811 | one more result gives a key its item only when no earlier result had it |
| Resolve.MergeAllEmpty | turbopack/crates/turbopack-core/src/resolve/mod.rs:794-811 | a merge of alternatives has no entries exactly when none of them has any |
| Resolve.Rerequest | turbopack/crates/turbopack-core/src/resolve/mod.rs:684-702 | every key takes the new request and keeps its conditions, one entry per entry |
| Resolve.StripEntries | turbopack/crates/turbopack-core/src/resolve/mod.rs:916-936 | the entries whose request starts with the prefix, each with the rest of its request; StripSound, StripComplete, StripTwice and StripNothing state it |
| Resolve.ReplaceEntries | turbopack/crates/turbopack-core/src/resolve/mod.rs:883-910 | the entries whose request starts with the old prefix, each under the new key's conditions and the new request followed by the rest; ReplaceIsStrip ties it to StripEntries |
| Resolve.StripShorter | turbopack/crates/turbopack-core/src/resolve/mod.rs:916-936 | stripping a prefix never adds entries |
| Resolve.StripAppend | turbopack/crates/turbopack-core/src/resolve/mod.rs:916-936 | stripping a concatenation strips each part |
| Resolve.PutAll | turbopack/crates/turbopack-core/src/resolve/mod.rs:704-710 | the conditions after inserting a list in order; PutAllSpec states each name ends with its last value |
| Resolve.LastValue | turbopack/crates/turbopack-core/src/resolve/mod.rs:704-710 | the value of the last condition with a name in a list; PutAllSpec states insertion keeps it |
| Resolve.AddCondition | turbopack/crates/turbopack-core/src/resolve/mod.rs:706-710 | every key with one condition inserted, one entry per entry |
| Resolve.WithConditions | turbopack/crates/turbopack-core/src/resolve/mod.rs:704-710 | every key with each condition inserted in order, one entry per entry |
| Resolve.InvalidImportsSpecifier | turbopack/crates/turbopack-core/src/resolve/mod.rs:2991 | "#", a specifier starting with "#/" or one ending with "/"; ResolvePackageInternal shows each is unresolvable |
| Resolve.NotAfterLookup | turbopack/crates/turbopack-core/src/resolve/mod.rs:432-435 | by induction over sorted conditions: a name ordered before the first one is found by no lookup and equals no stored name; NotBeforeFirst is its use |
| Resolve.BoolText | turbopack/crates/turbopack-core/src/resolve/mod.rs:450 | a condition's value as Rust's `Display` writes a bool, "true" or "false"; ConditionTexts states each condition is written "name=value" with it |
| NextConfig.InsertByLengthSorted | crates/next-core/src/next_config.rs:1396-1397 | one step of the stable sort by descending length keeps the list sorted longest first |
| NextConfig.InsertByLengthOfLength | crates/next-core/src/next_config.rs:1396-1397 | one step of the sort puts the new extension after the ones of its length |
| NextConfig.PageExtensionsSpec | crates/next-core/src/next_config.rs:1390-1398 | the page extensions are sorted longest first and the extensions of each length keep their configured order (a stable sort) |
| NextConfig.PageExtensionsPermutation | crates/next-core/src/next_config.rs:1390-1398 | the page extensions are exactly the configured ones, reordered |
| NextConfig.TrimEndSlashes | crates/next-core/src/next_config.rs:1693 | trimming trailing slashes gives a prefix without a trailing slash, and everything removed is slashes |
| NextConfig.ComputedAssetPrefix | crates/next-core/src/next_config.rs:1679-1697 | the computed asset prefix ends with "/_next/" |
| NextConfig.ComputedAssetPrefixSpec | crates/next-core/src/next_config.rs:1679-1697 | before "/_next/" comes the asset prefix, else the base path, else nothing, without its trailing slashes, and unchanged when it has none |
| NextConfig.TrimEndSlashesIdempotent | crates/next-core/src/next_config.rs:1693 | trimming trailing slashes twice is trimming once |
| NextConfig.ChunkSuffixPath | crates/next-core/src/next_config.rs:1699-1708 | there is a chunk suffix exactly when a deployment id is set, and it starts with "?dpl=" |
| NextConfig.ChunkSuffixPathRoundTrip | crates/next-core/src/next_config.rs:1699-1708 | the deployment id is the suffix after "?dpl=" |
| NextConfig.ModuleIdsFor | crates/next-core/src/next_config.rs:1811-1821 | module ids are named in development; in a build the configured kind, else deterministic |
| NextConfig.TurboMinify | crates/next-core/src/next_config.rs:1823-1829 | minification follows the configuration, and when unset is on exactly in a build |
| NextConfig.RemoveUnusedExports | crates/next-core/src/next_config.rs:1802-1809 | removing unused exports follows the configuration, and when unset is on exactly in a build |
| NextConfig.ScopeHoisting | crates/next-core/src/next_config.rs:1831-1839 | scope hoisting is off in development; in a build it is on unless configured off |
| NextConfig.DevelopmentIgnoresConfig | crates/next-core/src/next_config.rs:1811-1839 | in development the configured module ids and scope hoisting have no effect |
| NextConfig.EnableUseCache | crates/next-core/src/next_config.rs:1736-1746 | "use cache" follows its own flag, else the cache components flag, else is off |
| NextConfig.EnableRootParams | crates/next-core/src/next_config.rs:1748-1756 | root params follow their own flag, else the cache components flag, else are off |
| NextConfig.ImportExternals | crates/next-core/src/next_config.rs:1544-1551 | a boolean setting is returned as it is, an unset one is on, and "loose" is an error with its message |
| NextConfig.CacheKinds | crates/next-core/src/next_config.rs:63-72 | the cache kinds are "default", "remote" and "private" and the names of the configured cache handlers, and nothing else |
| NextConfig.CacheKindsDefaultHandlers | crates/next-core/src/next_config.rs:1758-1767 | without handlers, or with handlers named like default kinds, the kinds are the defaults |
| NextConfig.PageExtensions | crates/next-core/src/next_config.rs:1390-1398 | `page_extensions`: the configured extensions sorted longest first by a stable sort; `PageExtensionsSorted`, `PageExtensionsOfLength`, `PageExtensionsSpec` and `PageExtensionsPermutation` prove it sorted, stable and a permutation |
| NextConfig.InsertByLength | crates/next-core/src/next_config.rs:1396-1397 | one insertion step of the stable sort by length; `InsertByLengthSorted` and `InsertByLengthOfLength` prove it keeps the order and the relative order of equal lengths |
| NextConfig.LongestFirst | crates/next-core/src/next_config.rs:1396-1397 | a list sorted by length, longest first, which PageExtensionsSorted proves of the page extensions |
| NextConfig.OfLength | crates/next-core/src/next_config.rs:1396-1397 | the extensions of one length in their order, which PageExtensionsOfLength proves the sort keeps: the sort is stable |
| NextConfig.InsertByLengthBound | crates/next-core/src/next_config.rs:1396-1397 | inserting keeps every element at least as long as a bound the list and the new element meet |
| NextConfig.PageExtensionsSorted | crates/next-core/src/next_config.rs:1390-1398 | the page extensions are sorted longest first |
| NextConfig.PageExtensionsOfLength | crates/next-core/src/next_config.rs:1390-1398 | the page extensions of each length keep their configured order |
| NextConfig.OfLengthCovers | crates/next-core/src/next_config.rs:1390-1398 | two lists with the same extensions of every length are permutations of each other |
| NextConfig.OfLengthCount | crates/next-core/src/next_config.rs:1390-1398 | an extension occurs as often in the list as among the list's extensions of its length |
| HandleExternals.ServerOnlyLayersAreBundled | rspack/crates/binding/src/handle_externals.rs:16-28 | every server-only layer (rsc, action-browser, instrument, middleware) is one of the bundled layers; no layer is not bundled; "ssr" is bundled but not server-only |
| HandleExternals.NormalizePathSep | rspack/crates/binding/src/handle_externals.rs:498-501 | the result has the path's length, no backslash, and every other character kept in place |
| HandleExternals.NormalizePathSepIdempotent | rspack/crates/binding/src/handle_externals.rs:498-501 | normalizing separators twice gives the same path as once |
| HandleExternals.ResolveNextExternal | rspack/crates/binding/src/handle_externals.rs:454-497 | a path is turned into an external exactly when it matches the ".external" / ".external.js" pattern below "next/dist", and the external is a "commonjs " path without backslashes |
| HandleExternals.ResolveNextExternalPath | rspack/crates/binding/src/handle_externals.rs:466-494 | for a path without newlines the rewritten external is "commonjs next/dist…", the absolute part before "next/dist" being dropped |
| HandleExternals.IsResourceInPackages | rspack/crates/binding/src/handle_externals.rs:147-166 | true exactly when some package contains the resource: below its mapped directory when it has one, else inside "/node_modules/<pkg>/" |
| HandleExternals.ResourceInPackagesCases | rspack/crates/binding/src/handle_externals.rs:147-166 | no packages contain nothing; a mapped package matches only by its directory prefix; an unmapped one only by its node_modules path |
| HandleExternals.PreferEsmOptions | rspack/crates/binding/src/handle_externals.rs:555-559 | ESM resolution is tried first, then CommonJS, exactly when ESM externals are enabled and ESM was requested; otherwise only CommonJS |
| HandleExternals.ResolveExternal | rspack/crates/binding/src/handle_externals.rs:531-647 | the loop over the resolver options computes the resolution the option-by-option definition gives, stopping at the first accepted path, at the local callback, or after the last option |
| HandleExternals.ResolveLoopFound | rspack/crates/binding/src/handle_externals.rs:566-647 | when required ESM packages are not let through, a path that comes out was produced by the resolver for one of the options and, with the base check, the base resolution gives the same path and module kind |
| HandleExternals.ResolveLoopLocal | rspack/crates/binding/src/handle_externals.rs:597-606 | a local result only comes with the local callback, then with no path, and it is a "commonjs " external |
| HandleExternals.NextDistDecision | rspack/crates/binding/src/handle_externals.rs:298-319 | a "next/dist/" request is bundled, or kept external as a "commonjs " or "module " external |
| HandleExternals.EarlyDecision | rspack/crates/binding/src/handle_externals.rs:241-319 | every decision taken before resolving that keeps a request external writes it as "commonjs …" or "module …" |
| HandleExternals.BundlingOptOut | rspack/crates/binding/src/handle_externals.rs:200-227 | the request stays external, as "<type> <request>", exactly when the resolved file is a node_modules script, not bundled for the pages router and not in a transpiled package |
| HandleExternals.ExternalHandler.constructor | rspack/crates/binding/src/handle_externals.rs:180-198 | a new handler keeps its configuration and has no package directories yet |
| HandleExternals.ExternalHandler.HandleExternals | rspack/crates/binding/src/handle_externals.rs:230-449 | the result and the package directories afterwards are those the decision function gives from the directories before |
| HandleExternals.ExternalHandler.HandleResolved | rspack/crates/binding/src/handle_externals.rs:341-449 | after resolution, the result and the new package directories are those the post-resolution decision gives |
| HandleExternals.ExternalHandler.ResolvePackageDirs | rspack/crates/binding/src/handle_externals.rs:396-432 | the loop maps every transpiled package whose "package.json" resolves to the parent directory of that file, a later package overriding an earlier one |
| HandleExternals.NextFirst | rspack/crates/binding/src/handle_externals.rs:245-250 | "next" is always answered with the import warning module and changes nothing |
| HandleExternals.ReactOutsideBundledLayers | rspack/crates/binding/src/handle_externals.rs:256-263 | a non-local React package request outside the bundled layers is required as "commonjs <request>" |
| HandleExternals.HelpersAndBarrelsBundled | rspack/crates/binding/src/handle_externals.rs:270-281 | requests for @swc/helpers and barrel-optimized requests are bundled, unless the React rule applies first |
| HandleExternals.BundledLayerBundles | rspack/crates/binding/src/handle_externals.rs:364-372 | a resolved module not opted out of bundling, asked for from a bundled layer, is bundled and leaves the directories as they are |
| HandleExternals.RequiredEsmFails | rspack/crates/binding/src/handle_externals.rs:374-381 | requiring (not importing) a non-local package that resolved to ESM, outside loose mode, is the "ESM packages (…) need to be imported" error |
| HandleExternals.ExternalsAreTyped | rspack/crates/binding/src/handle_externals.rs:230-449 | every external the handler returns is written "commonjs <path>" or "module <path>" |
| HandleExternals.PackageDirsOnce | rspack/crates/binding/src/handle_externals.rs:396-435 | the package directories are computed at most once: once set they never change, and without transpiled packages they are never set |
| HandleExternals.IsBundledLayer | rspack/crates/binding/src/handle_externals.rs:16-28 | a layer is bundled exactly when it is one of the seven webpack bundled layers; stated through ServerOnlyLayersAreBundled and BundledLayerBundles |
| HandleExternals.ShouldUseReactServerCondition | rspack/crates/binding/src/handle_externals.rs:60-66 | the React server condition holds for the four server-only layers; ServerOnlyLayersAreBundled shows each of them is also bundled |
| HandleExternals.IsReactPackage | rspack/crates/binding/src/handle_externals.rs:30-31 | "react", "react-dom" and "react-server-dom-webpack", alone or followed by "/"; ReactOutsideBundledLayers states what the handler does with such a request |
| HandleExternals.IsNextImageLoader | rspack/crates/binding/src/handle_externals.rs:33-34 | the compiled image loader below "next/dist/shared/lib/"; NextImageLoaderBundled shows it is bundled |
| HandleExternals.IsNextServer | rspack/crates/binding/src/handle_externals.rs:36-37 | the compiled Next.js server; NextServerCommonJs shows it is external as CommonJS |
| HandleExternals.IsNextSharedCjs | rspack/crates/binding/src/handle_externals.rs:39-41 | a file below "next/dist/shared/" that is not the router; NextSharedCommonJs and NextRouterFallsThrough state both sides of the lookahead |
| HandleExternals.IsNextCompiledCjs | rspack/crates/binding/src/handle_externals.rs:43-44 | a compiled ".js" or ".cjs" file; NextCompiledJs shows it is external as CommonJS and MjsNotCjs that ".mjs" is not such a file |
| HandleExternals.IsNextSharedEsm | rspack/crates/binding/src/handle_externals.rs:46-49 | a file below "next/dist/esm/shared/" that is not the router; NextSharedEsm shows it is external as ESM |
| HandleExternals.IsNextCompiledMjs | rspack/crates/binding/src/handle_externals.rs:51-52 | a compiled ".mjs" file; NextCompiledMjs shows it is external as ESM |
| HandleExternals.IsBabelRuntime | rspack/crates/binding/src/handle_externals.rs:54-55 | a path inside "node_modules/@babel/runtime/"; RuntimeHelpersBundled shows such a file is bundled |
| HandleExternals.IsWebpackOrCssLoader | rspack/crates/binding/src/handle_externals.rs:57-58 | a path inside webpack or css-loader in "node_modules"; RuntimeHelpersBundled shows such a file is bundled |
| HandleExternals.IsNodeModulesFile | rspack/crates/binding/src/handle_externals.rs:144-145 | a ".js", ".mjs" or ".cjs" file below "node_modules"; BundlingOptOut keeps only such files external |
| HandleExternals.IsNextExternalFile | rspack/crates/binding/src/handle_externals.rs:454-464 | a ".external" or ".external.js" file below "next/dist"; ResolveNextExternal turns exactly these into externals |
| HandleExternals.InPackage | rspack/crates/binding/src/handle_externals.rs:155-165 | one package of the list: below its mapped directory, else inside "/node_modules/<pkg>/"; IsResourceInPackages and ResourceInPackagesCases state it |
| HandleExternals.ResolveLoop | rspack/crates/binding/src/handle_externals.rs:568-647 | the loop of resolve_external over the options; ResolveExternal computes it, and ResolveLoopFound and ResolveLoopLocal state what a found or local result means |
| HandleExternals.BaseOutcome | rspack/crates/binding/src/handle_externals.rs:613-636 | the base resolution from the project directory, a failure reading as no path; ResolveLoopFound shows an accepted path agrees with it |
| HandleExternals.IsLocal | rspack/crates/binding/src/handle_externals.rs:243 | a relative or absolute request; RequiredEsmFails and ReactOutsideBundledLayers state the rules that only non-local requests meet |
| HandleExternals.NextImageLoaderBundled | rspack/crates/binding/src/handle_externals.rs:33-34 | any request below "next/dist/shared/lib/image-loader" without back-slashes is bundled |
| HandleExternals.NextServerCommonJs | rspack/crates/binding/src/handle_externals.rs:36-37 | any request below "next/dist/compiled/next-server" is kept as "commonjs <request>" |
| HandleExternals.NextSharedCommonJs | rspack/crates/binding/src/handle_externals.rs:39-41 | a file below "next/dist/shared/" other than the router and the image loader is kept as "commonjs <request>" |
| HandleExternals.NextCompiledJs | rspack/crates/binding/src/handle_externals.rs:43-44 | a compiled ".js" file on one line is kept as "commonjs <request>" |
| HandleExternals.NextSharedEsm | rspack/crates/binding/src/handle_externals.rs:46-49 | a file below "next/dist/esm/shared/" other than the router is kept as "module <request>" |
| HandleExternals.MjsNotCjs | rspack/crates/binding/src/handle_externals.rs:43-44 | a name ending in ".mjs" matches neither ".js" nor ".cjs" at its end |
| HandleExternals.NextCompiledMjs | rspack/crates/binding/src/handle_externals.rs:51-52 | a compiled ".mjs" file on one line, not the Next.js server, is kept as "module <request>" |
| HandleExternals.RouterUnmatched | rspack/crates/binding/src/handle_externals.rs:39-49 | the shared router matches neither the image loader, the server, the compiled prefix nor either shared pattern |
| HandleExternals.NextRouterFallsThrough | rspack/crates/binding/src/handle_externals.rs:298-319 | the shared router is decided by the ".external" rule alone |
| HandleExternals.RuntimeHelpersBundled | rspack/crates/binding/src/handle_externals.rs:385-394 | once past the layer and ESM checks, a resolved Babel runtime, webpack or css-loader file is bundled and the directories are unchanged |
| HandleExternals.ResolvedPath | rspack/crates/binding/src/handle_externals.rs:347-364 | the path the decision goes on with: the default override for "styled-jsx/style", else the resolved path; BundledLayerBundles and RequiredEsmFails are stated over it |
| HandleExternals.PackageDirs | rspack/crates/binding/src/handle_externals.rs:396-432 | the parent directory of every transpiled package whose "package.json" resolves, a later package overriding an earlier one; ResolvePackageDirs computes it |
| HandleExternals.EsmRequireError | rspack/crates/binding/src/handle_externals.rs:374-381 | the "ESM packages (<request>) need to be imported" message; RequiredEsmFails states when it is returned |
| HandleExternals.ResolutionOf | rspack/crates/binding/src/handle_externals.rs:322-345 | the resolution of the request with the local callback for local requests; HandleExternals resolves with it |
| HandleExternals.Decide | rspack/crates/binding/src/handle_externals.rs:230-449 | the whole decision; HandleExternals computes it, ExternalsAreTyped and PackageDirsOnce state what it keeps |
| HandleExternals.DecideResolved | rspack/crates/binding/src/handle_externals.rs:341-449 | the decision after resolution; HandleResolved computes it and BundledLayerBundles, RequiredEsmFails and RuntimeHelpersBundled state its cases |
| HandleExternals.ReplaceNextDist | rspack/crates/binding/src/handle_externals.rs:466-489 | the replacement of the lazy match of `.*?next[/\\]dist` by "next/dist": a path in which no "next/dist" occurs (separators normalized) comes back unchanged; ReplaceNextDistNoNewline states the replacement on one line |
| HandleExternals.ReplaceNextDistNoNewline | rspack/crates/binding/src/handle_externals.rs:466-489 | on a path without newlines the match starts at the beginning, so the result is "next/dist" followed by what came after the first "next/dist" |
| HandleExternals.NormalizeKeepsPrefix | rspack/crates/binding/src/handle_externals.rs:489-490 | normalizing the separators of a path that starts with a text without back-slashes keeps that beginning, so the "next/dist" start survives normalize_path_sep |
| HandleExternals.CommonjsNextDist | rspack/crates/binding/src/handle_externals.rs:492 | the "commonjs " type prefix followed by "next/dist" spells "commonjs next/dist", the beginning ResolveNextExternalPath promises |
| HandleExternals.PlainPathSep | rspack/crates/binding/src/handle_externals.rs:498-501 | normalize_path_sep leaves a path without back-slashes as it is |
| HandleExternals.ParentDir | rspack/crates/binding/src/handle_externals.rs:427-429 | `Path::parent` of the resolved "package.json": a parent, when there is one, is strictly shorter than the path; PackageDirs records a package only when it has one |
| HandleExternals.QueryFor | rspack/crates/binding/src/handle_externals.rs:323-338 | the arguments resolve_external is called with: the project directory, the ESM externals setting, the context, the request, the ESM flag, the resolver and the local callback for local requests; ResolutionOf resolves with it |
| HandleExternals.IsPackageOrSubpath | rspack/crates/binding/src/handle_externals.rs:30-31 | one alternative of the React pattern: the package name alone or followed by "/"; ReactOutsideBundledLayers states what the handler does with it |
| HandleExternals.PrefixAndSuffix | rspack/crates/binding/src/handle_externals.rs:43-52 | an anchored pattern `^<prefix>.*<suffix>$`: the normalized path starts with the prefix and ends with one of the suffixes with no newline between; NextCompiledJs and NextCompiledMjs state its cases |
| HandleExternals.InfixAndSuffix | rspack/crates/binding/src/handle_externals.rs:144-145 | an unanchored pattern `<infix>.*<suffix>$`: the infix occurs somewhere and one of the suffixes ends the path with no newline after the infix; BundlingOptOut and ResolveNextExternal are stated over it |
| MetadataRoute.MetadataRouteSource | crates/next-core/src/next_app/metadata/route.rs:33-55 | a static file gets the static route; a dynamic file whose stem is robots or manifest the text route; stem sitemap the sitemap route; any other stem the image route; sitemap and image routes carry whether ids are generated |
| MetadataRoute.AppPage.constructor | crates/next-core/src/next_app/metadata/route.rs:63 | the page holds the given segments |
| MetadataRoute.AppPage.Pop | crates/next-core/src/next_app/metadata/route.rs:91 | the last segment, if any, is removed |
| MetadataRoute.AppPage.Push | crates/next-core/src/next_app/metadata/route.rs:94-100 | the segment is appended |
| MetadataRoute.AppPage.Last | crates/next-core/src/next_app/metadata/route.rs:97 | none exactly for an empty page, else the last segment |
| MetadataRoute.GetAppMetadataRouteEntry | crates/next-core/src/next_app/metadata/route.rs:57-112 | with multi-dynamic meaning generateSitemaps or generateImageMetadata, the page is rewritten in place to the metadata page of the old one and the route source is the one dispatched for the item |
| MetadataRoute.StaticPageUnchanged | crates/next-core/src/next_app/metadata/route.rs:87-102 | static metadata leaves the page unchanged |
| MetadataRoute.MultiDynamicPage | crates/next-core/src/next_app/metadata/route.rs:91-100 | with generated ids the last segment is replaced by [__metadata_id__] followed by the route segment |
| MetadataRoute.SitemapPage | crates/next-core/src/next_app/metadata/route.rs:91-100 | without generated ids a page ending in "sitemap" then its route segment ends in "sitemap.xml" then the route segment |
| MetadataRoute.OtherDynamicPage | crates/next-core/src/next_app/metadata/route.rs:91-100 | without generated ids any other page keeps its segments before the route segment |
| MetadataRoute.DynamicPageShape | crates/next-core/src/next_app/metadata/route.rs:87-102 | a dynamic metadata page ends with the route segment, keeps all segments before the last two, and grows by one segment exactly when ids are generated |
| MetadataRoute.RewriteIdempotent | crates/next-core/src/next_app/metadata/route.rs:87-102 | without generated ids, rewriting an already rewritten page leaves it unchanged |
| MetadataRoute.StaticCacheControl | crates/next-core/src/next_app/metadata/route.rs:135-144 | "public, max-age=0, must-revalidate" in a production build, "no-cache, no-store" in development |
| MetadataRoute.StaticRouteContent | crates/next-core/src/next_app/metadata/route.rs:118-179 | a size issue is emitted exactly for a twitter-image or opengraph-image file over its limit, which is then inlined as ""; other files are inlined as base64; a missing file is the "metadata file not found" error |
| MetadataRoute.SizeLimits | crates/next-core/src/next_app/metadata/route.rs:152-159 | the limit is 5 MiB for twitter-image and 8 MiB for opengraph-image; other files are inlined whatever their size |
| MetadataImage.SizesCode | crates/next-core/src/next_app/metadata/image.rs:56-66 | numeric width and height for twitter and openGraph images, sizes "any" for an svg file, and "${size.width}x${size.height}" otherwise |
| MetadataImage.NonDefault | crates/next-core/src/next_app/metadata/image.rs:200-206 | the kept exports are exactly the exports other than "default" |
| MetadataImage.NonDefaultInOrder | crates/next-core/src/next_app/metadata/image.rs:200-206 | the kept exports keep the order in which the module exports them |
| MetadataImage.NonDefaultWithoutDefault | crates/next-core/src/next_app/metadata/image.rs:200-206 | a module without a default export keeps all its exports |
| MetadataImage.ImageTemplateFor | crates/next-core/src/next_app/metadata/image.rs:208-226 | the generator template is chosen exactly when "generateImageMetadata" is exported |
| MetadataImage.GeneratorReexported | crates/next-core/src/next_app/metadata/image.rs:200-226 | when the generator template is chosen, "generateImageMetadata" is among the re-exported fields |
| Text.HexRoundTrip | crates/next-core/src/next_app/metadata/image.rs:54 | the lower-case hexadecimal text of a number reads back as that number and has only lower-case hex digits |
| MetadataImage.HashQuery | crates/next-core/src/next_app/metadata/image.rs:27-54 | the query exists exactly when the file does, starts with "?" and has at least one digit; a missing file is the "metadata file not found" error |
| MetadataImage.HashQueryRoundTrip | crates/next-core/src/next_app/metadata/image.rs:54 | the digits after "?" are lower-case hex and read back as the content hash |
| MetadataRoute.StemOf | crates/next-core/src/next_app/metadata/route.rs:44-45 | the file stem of a metadata file, empty when it has none; MetadataRouteSource decides the route kind on it |
| MetadataRoute.DropLast | crates/next-core/src/next_app/metadata/route.rs:91 | the page segments without the last one, a prefix one shorter, or nothing from an empty page |
| MetadataRoute.MetadataPage | crates/next-core/src/next_app/metadata/route.rs:87-102 | the page of a metadata route; StaticPageUnchanged, MultiDynamicPage, SitemapPage, OtherDynamicPage and DynamicPageShape state its cases and RewriteIdempotent its fixed point |
| MetadataRoute.FileSizeLimitMb | crates/next-core/src/next_app/metadata/route.rs:156 | the size limit in megabytes: 5 for Twitter images, 8 for the others; SizeLimits states which images it applies to |
| MetadataImage.SizesAssignment | crates/next-core/src/next_app/metadata/image.rs:65 | the statement setting data.sizes to a template text, which SizesCode states for each image kind |
| MetadataImage.SubsequenceOf | crates/next-core/src/next_app/metadata/image.rs:200-206 | one list's elements appear in another in the same order, which NonDefaultInOrder proves of the kept exports |
| MetadataImage.ExportedFieldsExcludingDefault | crates/next-core/src/next_app/metadata/image.rs:200-206 | the exports other than default joined with commas; NonDefault, NonDefaultInOrder and NonDefaultWithoutDefault state which exports are kept and in what order |
| References.InsertOrdered | turbopack/crates/turbopack-ecmascript/src/references/mod.rs:255-258 | an index-set insert keeps every earlier reference in place, adds the new one at most once at the end, and keeps the set free of duplicates |
| References.EntryOrInsert | turbopack/crates/turbopack-ecmascript/src/references/mod.rs:322-345 | an entry lookup returns the stored reference when the key is present and otherwise stores the created one at the end; keys stay distinct |
| References.EntryOrInsertOnce | turbopack/crates/turbopack-ecmascript/src/references/mod.rs:322-345 | the factory runs at most once per key: a second request returns the first reference and stores nothing |
| References.AnalyzeResultBuilder.constructor | turbopack/crates/turbopack-ecmascript/src/references/mod.rs:236-252 | a new builder is empty, with unknown exports, no async module, no source map and not successful |
| References.AnalyzeResultBuilder.AddReference | turbopack/crates/turbopack-ecmascript/src/references/mod.rs:255-258 | the reference is inserted into the ordered reference set; nothing else changes |
| References.AnalyzeResultBuilder.AddReferenceCodeGen | turbopack/crates/turbopack-ecmascript/src/references/mod.rs:261-265 | the reference is inserted and its code generation recorded as add_code_gen does |
| References.AnalyzeResultBuilder.AddEsmReference | turbopack/crates/turbopack-ecmascript/src/references/mod.rs:268-271 | the index is marked as an ESM reference and as a local one, not as a re-export |
| References.AnalyzeResultBuilder.AddEsmReexportReference | turbopack/crates/turbopack-ecmascript/src/references/mod.rs:275-278 | the index is marked as an ESM reference and as a re-export, not as a local one |
| References.AnalyzeResultBuilder.AddEsmEvaluationReference | turbopack/crates/turbopack-ecmascript/src/references/mod.rs:282-285 | the index is marked as an ESM reference and as a local one |
| References.AnalyzeResultBuilder.AddCodeGen | turbopack/crates/turbopack-ecmascript/src/references/mod.rs:288-295 | a code generation is appended only in code-generation mode; the builder invariant (none collected otherwise) is kept |
| References.AnalyzeResultBuilder.SetSourceMap | turbopack/crates/turbopack-ecmascript/src/references/mod.rs:298-300 | only the source map changes |
| References.AnalyzeResultBuilder.SetExports | turbopack/crates/turbopack-ecmascript/src/references/mod.rs:303-305 | only the exports change |
| References.AnalyzeResultBuilder.SetAsyncModule | turbopack/crates/turbopack-ecmascript/src/references/mod.rs:308-310 | only the async module changes |
| References.AnalyzeResultBuilder.SetHasSideEffectFreeDirective | turbopack/crates/turbopack-ecmascript/src/references/mod.rs:313-315 | only the side-effect-free directive changes |
| References.AnalyzeResultBuilder.SetSuccessful | turbopack/crates/turbopack-ecmascript/src/references/mod.rs:318-320 | only the success flag changes |
| References.AnalyzeResultBuilder.AddEsmReferenceNamespaceResolved | turbopack/crates/turbopack-ecmascript/src/references/mod.rs:322-334 | the reference for an import's namespace member comes from that import's ordered map, created only when absent; other imports' maps are unchanged |
| References.AnalyzeResultBuilder.AddEsmReferenceFreeVar | turbopack/crates/turbopack-ecmascript/src/references/mod.rs:336-346 | a stored free-variable reference is returned without running the factory; otherwise the factory's reference is stored at the end, and its error is returned with nothing stored |
| References.AnalyzeResultBuilder.Build | turbopack/crates/turbopack-ecmascript/src/references/mod.rs:348-415 | the ESM list is the free-variable references followed, import by import, by the marked import and its rewritten references; the local list likewise; the re-export list holds the marked re-export imports; local and re-export lists are empty unless re-export references are tracked; no code generation outside code-generation mode |
| References.Extend | turbopack/crates/turbopack-ecmascript/src/references/mod.rs:370-394 | one import's step of build: the import when marked, then its rewritten references |
| References.SpliceAllMarked | turbopack/crates/turbopack-ecmascript/src/references/mod.rs:370-394 | with every import marked and nothing rewritten the ESM list is the import list |
| References.SpliceMembers | turbopack/crates/turbopack-ecmascript/src/references/mod.rs:370-394 | without rewrites an import reference is emitted exactly when some marked index holds it |
| References.SpliceContains | turbopack/crates/turbopack-ecmascript/src/references/mod.rs:370-394 | every marked import and every rewritten reference of an import is emitted |
| References.SpliceSubsequence | turbopack/crates/turbopack-ecmascript/src/references/mod.rs:370-394 | emitting a subset of the marked imports and of the rewrite lists yields a sub-sequence of the full list |
| References.BuildListsOrdered | turbopack/crates/turbopack-ecmascript/src/references/mod.rs:355-394 | since local and re-export indices are ESM indices, the local and re-export lists are sub-sequences of the ESM list |
| References.VisitIdent | turbopack/crates/turbopack-ecmascript/src/references/mod.rs:3813-3830 | module or exports raises the CommonJS flag, the two runtime-function names raise the value or namespace flag, each with found |
| References.Classify | turbopack/crates/turbopack-ecmascript/src/references/mod.rs:3875-3883 | CommonJS beats a value export, which beats a namespace export, which beats none; all four as if-and-only-if |
| References.DetectDynamicExport | turbopack/crates/turbopack-ecmascript/src/references/mod.rs:3787-3802 | the result is UsingModuleDeclarations exactly when a module has a declaration other than a Turbopack or SWC helper import |
| References.DetectDynamicExportOf | turbopack/crates/turbopack-ecmascript/src/references/mod.rs:3787-3884 | running the visitor over the program gives the verdict of the specification function |
| References.DynamicExportVisitor.Visit | turbopack/crates/turbopack-ecmascript/src/references/mod.rs:3832-3865 | visiting nodes in place leaves the flags the specification function computes: statements and expressions skipped once found, identifiers always seen, context member accesses raise value or namespace |
| References.VisitMonotone | turbopack/crates/turbopack-ecmascript/src/references/mod.rs:3815-3865 | the visitor only raises flags and raises found with each of them |
| References.CommonJsNamed | turbopack/crates/turbopack-ecmascript/src/references/mod.rs:3820-3823 | the CommonJS verdict needs an identifier module or exports somewhere in the program |
| References.FoundSkips | turbopack/crates/turbopack-ecmascript/src/references/mod.rs:3832-3865 | once something is found, further statements and expressions change nothing |
| References.CommonJsFirstWins | turbopack/crates/turbopack-ecmascript/src/references/mod.rs:3875-3876 | a script whose first statement names module is CommonJS whatever follows |
| References.ValueBeforeModule | turbopack/crates/turbopack-ecmascript/src/references/mod.rs:3832-3878 | a value export followed by a statement naming module is detected as a value export, because the later statement is skipped |
| References.IsInvokingNodeProcessEval | turbopack/crates/turbopack-ecmascript/src/references/mod.rs:3890-3927 | true exactly when there are at least two arguments, the first is process.argv[0] and the second is an array holding the atom "-e" |
| References.ProcessEvalFirstTwo | turbopack/crates/turbopack-ecmascript/src/references/mod.rs:3890-3927 | only the first two arguments decide |
| References.RequireResolve | turbopack/crates/turbopack-ecmascript/src/references/mod.rs:2980-2983 | the placeholder path starts with "/ROOT/" and is six characters longer than the path |
| References.RequireResolveRoundTrip | turbopack/crates/turbopack-ecmascript/src/references/mod.rs:2970-2983 | the path reads back after "/ROOT/", so distinct paths give distinct placeholders |
| References.DynamicExportVisitor.VisitIdentNode | turbopack/crates/turbopack-ecmascript/src/references/mod.rs:3813-3830 | the flags become those of the identifier rule |
| References.DynamicExportVisitor.constructor | turbopack/crates/turbopack-ecmascript/src/references/mod.rs:3868-3873 | the visitor starts with every flag false |
| References.NoDuplicates | turbopack/crates/turbopack-ecmascript/src/references/mod.rs:219-220 | an index set holds no element twice; InsertOrdered states inserts keep it so |
| References.DistinctKeys | turbopack/crates/turbopack-ecmascript/src/references/mod.rs:225 | an index map holds no key twice; EntryOrInsert states it is kept |
| References.Values | turbopack/crates/turbopack-ecmascript/src/references/mod.rs:387-392 | the rewritten references of an import, in insertion order, one per entry |
| References.Lookup | turbopack/crates/turbopack-ecmascript/src/references/mod.rs:326-345 | the value stored under a key: none exactly when no entry has the key, else a stored pair |
| References.RewrittenAt | turbopack/crates/turbopack-ecmascript/src/references/mod.rs:387-392 | the references rewritten through import `i`'s namespace, none when it has no rewrites |
| References.SpliceStep | turbopack/crates/turbopack-ecmascript/src/references/mod.rs:383-392 | for one import, the import when marked and then its rewritten references; SpliceNext and Extend state the loop emits it |
| References.Splice | turbopack/crates/turbopack-ecmascript/src/references/mod.rs:373-398 | the emitted list for the first `n` imports; SpliceContains, SpliceMembers and SpliceSubsequence state what it holds and in which order |
| References.SpliceNext | turbopack/crates/turbopack-ecmascript/src/references/mod.rs:373-392 | one more import extends the list by exactly that import's step |
| References.Subsequence | turbopack/crates/turbopack-ecmascript/src/references/mod.rs:373-398 | elements kept in order; SpliceSubsequence states the marked imports appear in import order |
| References.SubsequenceRefl | turbopack/crates/turbopack-ecmascript/src/references/mod.rs:373-398 | every list is in order with itself |
| References.SubsequenceExtend | turbopack/crates/turbopack-ecmascript/src/references/mod.rs:373-398 | appending to the larger list keeps an ordered sub-list ordered |
| References.SubsequenceConcat | turbopack/crates/turbopack-ecmascript/src/references/mod.rs:373-398 | ordered sub-lists of two parts concatenate to an ordered sub-list of the whole |
| References.VisitContextProp | turbopack/crates/turbopack-ecmascript/src/references/mod.rs:3837-3854 | `__turbopack_context__.v` raises the value flag and `.n` the namespace flag, each with `found` |
| References.VisitNodes | turbopack/crates/turbopack-ecmascript/src/references/mod.rs:3811-3865 | the flags after the visit; VisitMonotone, FoundSkips and CommonJsNamed state how they rise |
| References.IsSwcHelperImport | turbopack/crates/turbopack-ecmascript/src/references/mod.rs:3774-3776 | an import from `@swc/helpers/` |
| References.IsModuleDeclaration | turbopack/crates/turbopack-ecmascript/src/references/mod.rs:3792-3797 | a module declaration other than a Turbopack or SWC helper import; DetectDynamicExport states its iff |
| References.ProgramNodes | turbopack/crates/turbopack-ecmascript/src/references/mod.rs:3875 | the program's top-level nodes in order, a declaration by its inner nodes |
| References.Consistent | turbopack/crates/turbopack-ecmascript/src/references/mod.rs:3813-3856 | each raised flag comes with `found`; VisitMonotone states the visitor keeps it |
| References.Mentions | turbopack/crates/turbopack-ecmascript/src/references/mod.rs:3813-3830 | some identifier at any depth is one of the names; CommonJsNamed states the CommonJS verdict needs one |
| References.ItemNode | turbopack/crates/turbopack-ecmascript/src/references/mod.rs:3875 | the node the visitor walks for one module item: a declaration's inner node, a statement itself; ProgramNodes states the program is walked item by item |
| References.DynamicExportVisitor.State | turbopack/crates/turbopack-ecmascript/src/references/mod.rs:3803-3808 | the visitor's four flags read together; the constructor, VisitIdentNode and Visit state each change of them |
| Graph.Merge | turbopack/crates/turbopack-ecmascript/src/analyzer/graph.rs:270-277 | the state is kept when the new assignment's scope kind matches it and becomes Mixed otherwise |
| Graph.MixedStaysMixed | turbopack/crates/turbopack-ecmascript/src/analyzer/graph.rs:270-277 | Mixed stays Mixed whatever is merged |
| Graph.MergeAllMeaning | turbopack/crates/turbopack-ecmascript/src/analyzer/graph.rs:255-292 | after any sequence of assignments the state is all-module-evaluation exactly when no assignment was in a function, and all-functions exactly when none was in module evaluation |
| Graph.Combine | turbopack/crates/turbopack-ecmascript/src/analyzer/graph.rs:450-454 | no value gives the empty string, one value gives itself, more give their concatenation |
| Graph.EvalTpl | turbopack/crates/turbopack-ecmascript/src/analyzer/graph.rs:416-455 | the loop pushes string parts and substitutions alternately, leaving out empty string parts, and combines them; in cooked mode a missing cooked text makes the value unknown |
| Graph.CookedMissingStep | turbopack/crates/turbopack-ecmascript/src/analyzer/graph.rs:420-441 | each loop index adds the string part it reads to the parts checked for a missing cooked text |
| Graph.PiecesAlternate | turbopack/crates/turbopack-ecmascript/src/analyzer/graph.rs:420-447 | with no empty string part, string part k is at position 2k and substitution k at 2k+1 |
| Graph.PiecesOnlySubstitutions | turbopack/crates/turbopack-ecmascript/src/analyzer/graph.rs:420-447 | with every string part empty the values are exactly the substitutions |
| Graph.PlainTemplate | turbopack/crates/turbopack-ecmascript/src/analyzer/graph.rs:416-455 | a template without substitutions evaluates to its text |
| Graph.SingleSubstitution | turbopack/crates/turbopack-ecmascript/src/analyzer/graph.rs:450-454 | a template that is a single substitution evaluates to that substitution's value |
| Graph.IsInTry | turbopack/crates/turbopack-ecmascript/src/analyzer/graph.rs:1052-1068 | true exactly when some try block in the path has no function-like body nearer to the node |
| Graph.FunctionInsideTry | turbopack/crates/turbopack-ecmascript/src/analyzer/graph.rs:1052-1068 | a function body inside a try block cuts the try off: code in it is not in the try |
| Graph.EarlyReturnKindSides | turbopack/crates/turbopack-ecmascript/src/analyzer/graph.rs:1528-1557 | in each of the eight cases the branches keep their blocks and the code after the if joins the side that does not return |
| Graph.EndBlockAlways | turbopack/crates/turbopack-ecmascript/src/analyzer/graph.rs:1499-1569 | ending a block reports that it always returns exactly when some stack entry is Always |
| Graph.EndBlockBottom | turbopack/crates/turbopack-ecmascript/src/analyzer/graph.rs:1499-1569 | the stack is drained from its top, so the bottom entry is folded in last |
| Graph.EndBlockBottomAlways | turbopack/crates/turbopack-ecmascript/src/analyzer/graph.rs:1503-1511 | an Always entry at the bottom leaves the effects from before it, with the unreachable marker in code-generation mode, whatever was above it |
| Graph.Analyzer.constructor | turbopack/crates/turbopack-ecmascript/src/analyzer/graph.rs:345-354 | a new analyser has no effects and an empty early-return stack |
| Graph.Analyzer.AddEffect | turbopack/crates/turbopack-ecmascript/src/analyzer/graph.rs:1116-1118 | the effect is appended |
| Graph.Analyzer.EndEarlyReturnBlock | turbopack/crates/turbopack-ecmascript/src/analyzer/graph.rs:1499-1569 | the stack is drained and the effects and the always-returns answer are those of the specification function |
| Graph.Analyzer.AddConditionalIfEffectWithEarlyReturn | turbopack/crates/turbopack-ecmascript/src/analyzer/graph.rs:2605-2679 | the effects and the stack become those of the specification function for every combination of blocks, condition and early returns |
| Graph.NothingToAdd | turbopack/crates/turbopack-ecmascript/src/analyzer/graph.rs:2615-2618 | an if with no blocks and no early returns adds nothing |
| Graph.UnknownConditionInlines | turbopack/crates/turbopack-ecmascript/src/analyzer/graph.rs:2620-2629 | an unknown condition inlines both branches' effects and records no early return |
| Graph.BothReturnAlways | turbopack/crates/turbopack-ecmascript/src/analyzer/graph.rs:2654-2677 | an if whose branches both return, with some effect, makes ending the block report always-returns, and keeps the effects up to the conditional |
| Graph.BothReturnWithoutEffects | turbopack/crates/turbopack-ecmascript/src/analyzer/graph.rs:2654-2664 | an if whose branches both return but have no effects records no early return |
| Graph.ReturnWhenTrueWrapsRest | turbopack/crates/turbopack-ecmascript/src/analyzer/graph.rs:2630-2641 | a then branch that returns puts the rest of the block on the else side of the conditional when the block ends |
| Graph.NewScopes | turbopack/crates/turbopack-ecmascript/src/analyzer/graph.rs:262-267 | the scopes of a first assignment; MergeAllMeaning proves the state stays that kind exactly while every assignment is of the same kind |
| Graph.MergeAll | turbopack/crates/turbopack-ecmascript/src/analyzer/graph.rs:255-292 | the assignment scopes after a first assignment and each later one; MergeAllMeaning proves it is Mixed exactly when both kinds occur, and MixedStaysMixed that Mixed is final |
| Graph.QuasiPiece | turbopack/crates/turbopack-ecmascript/src/analyzer/graph.rs:420-441 | the string a template part contributes, nothing when it is empty; QuasiPieceOf states it for the raw and the cooked text |
| Graph.QuasiPieceOf | turbopack/crates/turbopack-ecmascript/src/analyzer/graph.rs:420-441 | a raw part contributes its raw text and a cooked part its cooked text, each only when non-empty |
| Graph.PieceAt | turbopack/crates/turbopack-ecmascript/src/analyzer/graph.rs:420-447 | string parts at even loop indices and substitutions at odd ones; PiecesAlternate proves the resulting order |
| Graph.Pieces | turbopack/crates/turbopack-ecmascript/src/analyzer/graph.rs:420-447 | the values pushed for the first loop indices; PiecesAlternate, PiecesOnlySubstitutions and CookedMissingStep state their contract |
| Graph.CookedMissingBefore | turbopack/crates/turbopack-ecmascript/src/analyzer/graph.rs:420-441 | some string part before the loop index has no cooked text; CookedMissingStep proves how this grows by one loop index, the flag EvalTpl turns into an unknown value |
| Graph.IsFunctionBoundary | turbopack/crates/turbopack-ecmascript/src/analyzer/graph.rs:1052-1068 | the node kinds at which the search for an enclosing try stops; FunctionInsideTry proves a function body inside a try is not in it |
| Graph.OptionList | turbopack/crates/turbopack-ecmascript/src/analyzer/graph.rs:2654-2679 | an optional block as a list of zero or one blocks; EarlyReturnKindSides uses it to state which blocks run on each side |
| Graph.Sides | turbopack/crates/turbopack-ecmascript/src/analyzer/graph.rs:1528-1557 | the blocks run when the condition holds and when it does not; EarlyReturnKindSides states which given blocks and which code after the if run on each side |
| Graph.EarlyReturnKind | turbopack/crates/turbopack-ecmascript/src/analyzer/graph.rs:1528-1557 | the conditional built when a conditional early return ends; EarlyReturnKindSides proves it keeps the given branches on their sides and, but for a bare returning if, puts the rest on the side that does not return |
| Graph.EndEntry | turbopack/crates/turbopack-ecmascript/src/analyzer/graph.rs:1499-1569 | one entry of the early-return stack closed: an always-returning block restores the earlier effects; EndBlockAlways and EndBlockBottom state its effect on the stack |
| Graph.EndBlock | turbopack/crates/turbopack-ecmascript/src/analyzer/graph.rs:1499-1569 | the effects after draining the early-return stack and whether an entry always returned; EndBlockAlways, EndBlockBottom and EndBlockBottomAlways state its contract |
| Graph.AddConditionalIf | turbopack/crates/turbopack-ecmascript/src/analyzer/graph.rs:2605-2679 | the new effects and early-return stack after a conditional if; NothingToAdd, UnknownConditionInlines, BothReturnAlways, BothReturnWithoutEffects and ReturnWhenTrueWrapsRest state its cases |
| EsmExport.AddNames | turbopack/crates/turbopack-ecmascript/src/references/esm/export.rs:399-406 | every name a module adds maps to that module and is not "default"; names already collected keep their module; every non-default name of the module is collected |
| EsmExport.PushStarTargets | turbopack/crates/turbopack-ecmascript/src/references/esm/export.rs:407-415 | exactly the star targets not checked before are queued, each once, and all targets end up checked |
| EsmExport.VisitModule | turbopack/crates/turbopack-ecmascript/src/references/esm/export.rs:397-467 | an ESM module adds its names and queues its targets; CommonJS, dynamic-namespace and unknown modules are recorded as dynamic; modules without exports, with only a default or with CommonJS exports raise their warning |
| EsmExport.WorklistStep | turbopack/crates/turbopack-ecmascript/src/references/esm/export.rs:393-416 | one pop keeps the checked set equal to the visited plus queued modules, each once, keeps every star target of a visited module checked and every checked module reached from the root, and shrinks the work left |
| EsmExport.ExpandStarExports | turbopack/crates/turbopack-ecmascript/src/references/esm/export.rs:389-473 | the worklist visits the root first and every module at most once; every star target of a visited module is visited and every visited module is the root or a star target of a visited one; its names, dynamic modules and warnings are those of the visited modules in visiting order |
| EsmExport.FirstExporterWins | turbopack/crates/turbopack-ecmascript/src/references/esm/export.rs:399-406 | "default" is never collected; a collected name maps to the first visited module declaring it; every non-default name of a visited module is collected |
| EsmExport.DynamicMembers | turbopack/crates/turbopack-ecmascript/src/references/esm/export.rs:428-466 | a module is reported as dynamically exporting exactly when it was visited and its exports are CommonJS, a dynamic namespace or unknown |
| EsmExport.NamesExpandedByStep | turbopack/crates/turbopack-ecmascript/src/references/esm/export.rs:524-554 | a star export keeps every used declared export, and adds only used, non-default names that its expansion brings |
| EsmExport.DynamicExpandedByStep | turbopack/crates/turbopack-ecmascript/src/references/esm/export.rs:555-557 | a star export's module is recorded exactly when its expansion has dynamically exporting modules |
| EsmExport.ExpandStar | turbopack/crates/turbopack-ecmascript/src/references/esm/export.rs:524-558 | one star export keeps the promise of `expand_exports`, for the star exports up to it |
| EsmExport.ExpandExports | turbopack/crates/turbopack-ecmascript/src/references/esm/export.rs:512-562 | every used declared export is kept unchanged; any other export is a used non-default name that some resolved star export brings, bound as an import through that star export; unused names are dropped unless all are used; a module is recorded exactly when it is the target of a star export whose expansion is dynamic |
| EsmExport.GetAllExportNames | turbopack/crates/turbopack-ecmascript/src/references/esm/export.rs:331-380 | the loop computes the declared names extended by each resolved star export's expansion in order, or the module itself as the one dynamic module when it has no ESM exports |
| EsmExport.ExtendStarsNames | turbopack/crates/turbopack-ecmascript/src/references/esm/export.rs:346-373 | a name is known exactly when declared or brought by some resolved star export; a declared name no star export brings keeps the module itself |
| EsmExport.ExtendStarsLastWins | turbopack/crates/turbopack-ecmascript/src/references/esm/export.rs:361-373 | when star exports bring a name, its module is the one the last of them gives |
| EsmExport.ExtendStarsDynamic | turbopack/crates/turbopack-ecmascript/src/references/esm/export.rs:361-373 | the dynamic modules are exactly those of the resolved star exports' expansions |
| EsmExport.IsExportMissing | turbopack/crates/turbopack-ecmascript/src/references/esm/export.rs:75-127 | `__turbopack_module_id__` is never missing; a module without exports misses every name; an empty CommonJS module every name but "default"; other non-ESM modules none; an ESM module misses no declared name, an undeclared "default", any undeclared name without star exports, and otherwise exactly the names neither collected nor possibly provided by a dynamic module |
| EsmExport.MissingIffUnprovided | turbopack/crates/turbopack-ecmascript/src/references/esm/export.rs:102-126 | an undeclared non-default name behind star exports is missing exactly when no star export's expansion brings it and no dynamic module might provide it |
| EsmExport.HandleDeclaredExport | turbopack/crates/turbopack-ecmascript/src/references/esm/export.rs:242-287 | a resolved imported binding continues to its module and name; a resolved namespace or a local binding is found, the namespace without a name; everything else is unknown at the module itself |
| EsmExport.FollowReexportsLoop | turbopack/crates/turbopack-ecmascript/src/references/esm/export.rs:154-240 | the loop reassigning the module and the name computes the bounded search, ignoring side effects for the entry only |
| EsmExport.FollowOutcomes | turbopack/crates/turbopack-ecmascript/src/references/esm/export.rs:164-239 | a name found with its name is a local binding of the ESM module the search ends at; a stop for side effects is at an ESM module not marked side-effect free; a name not found is not declared there |
| EsmExport.NonEsmIsDynamic | turbopack/crates/turbopack-ecmascript/src/references/esm/export.rs:165-172 | a module without ESM exports ends the search at once as dynamic |
| EsmExport.StarTargets | turbopack/crates/turbopack-ecmascript/src/references/esm/export.rs:407-415 | the modules a module's resolved star exports point to; StarTargetsOf states a module is among them exactly when some star export resolves to it |
| EsmExport.StarTargetsOf | turbopack/crates/turbopack-ecmascript/src/references/esm/export.rs:407-415 | a module is listed exactly when some star export resolves to it |
| EsmExport.Closed | turbopack/crates/turbopack-ecmascript/src/references/esm/export.rs:389-473 | every module a star export reaches is in the module graph; ExpandStarExports assumes only this of its input |
| EsmExport.CollectNames | turbopack/crates/turbopack-ecmascript/src/references/esm/export.rs:399-406 | the names collected in visiting order, the first module to export a name keeping it; VisitOne and FirstExporterWins state it |
| EsmExport.DynamicOf | turbopack/crates/turbopack-ecmascript/src/references/esm/export.rs:428-466 | the visited modules whose exports are known only at run time, in visiting order; VisitOne and DynamicMembers state it |
| EsmExport.IssuesOf | turbopack/crates/turbopack-ecmascript/src/references/esm/export.rs:416-457 | the star-export warnings of the visited modules, in visiting order; VisitOne states each visit adds its module's warning |
| EsmExport.IssueFor | turbopack/crates/turbopack-ecmascript/src/references/esm/export.rs:416-457 | the warning a module without exports, with only a default export, or with CommonJS exports raises under "export *" |
| EsmExport.VisitOne | turbopack/crates/turbopack-ecmascript/src/references/esm/export.rs:397-467 | visiting one more module adds its names, its dynamic exports and its warning after those of the modules before it |
| EsmExport.AddedUnchecked | turbopack/crates/turbopack-ecmascript/src/references/esm/export.rs:407-415 | the modules one step queues were not checked before and are checked after |
| EsmExport.QueueStaysDistinct | turbopack/crates/turbopack-ecmascript/src/references/esm/export.rs:407-415 | queueing only unchecked modules keeps the queue free of repeats |
| EsmExport.VisitedStaysDistinct | turbopack/crates/turbopack-ecmascript/src/references/esm/export.rs:397 | visiting a module not visited before keeps the visited list free of repeats |
| EsmExport.PartitionStep | turbopack/crates/turbopack-ecmascript/src/references/esm/export.rs:397-415 | after a pop and its pushes, the checked modules are still exactly the visited and the queued ones, each once |
| EsmExport.ExploredStep | turbopack/crates/turbopack-ecmascript/src/references/esm/export.rs:407-415 | after a visit, every star target of every visited module is checked |
| EsmExport.ReachedStep | turbopack/crates/turbopack-ecmascript/src/references/esm/export.rs:407-415 | after a visit, every checked module is still the root or a star target of a visited one |
| EsmExport.AddStarNames | turbopack/crates/turbopack-ecmascript/src/references/esm/export.rs:524-554 | a star export adds each used name it brings other than "default" that is not exported yet, as a binding imported through it, and keeps every existing export |
| EsmExport.ExtendStars | turbopack/crates/turbopack-ecmascript/src/references/esm/export.rs:346-373 | the declared names extended by each resolved star export's expansion in turn; ExtendStarsNames, ExtendStarsLastWins and ExtendStarsDynamic state it |
| EsmExport.NoStarProvidesSnoc | turbopack/crates/turbopack-ecmascript/src/references/esm/export.rs:361-373 | a star export that does not bring a name, after ones that do not, leaves the name unprovided |
| EsmExport.LocalNames | turbopack/crates/turbopack-ecmascript/src/references/esm/export.rs:346 | every declared name of an ESM module, provided by that module |
| EsmExport.AllExportNamesOf | turbopack/crates/turbopack-ecmascript/src/references/esm/export.rs:331-380 | the names and dynamic modules of get_all_export_names; GetAllExportNames computes it and MissingIffUnprovided uses it |
| EsmExport.SomeDynamicProvider | turbopack/crates/turbopack-ecmascript/src/references/esm/export.rs:107-126 | some module in the list might export any name at run time; IsExportMissing states an undeclared name is missing only without one |
| EsmExport.FindExportFromReexports | turbopack/crates/turbopack-ecmascript/src/references/esm/export.rs:295-322 | the module get_all_export_names gives for the name, and the dynamic modules; FindExportOutcome states it |
| EsmExport.FindExportOutcome | turbopack/crates/turbopack-ecmascript/src/references/esm/export.rs:315-321 | for an undeclared name, a module is found exactly when some resolved star export brings the name, and the dynamic modules are exactly those of the expansions |
| EsmExport.FollowStep | turbopack/crates/turbopack-ecmascript/src/references/esm/export.rs:160-239 | one pass of the loop of follow_reexports; FollowStarStep, FollowOutcomes and NonEsmIsDynamic state its cases |
| EsmExport.FollowStarStep | turbopack/crates/turbopack-ecmascript/src/references/esm/export.rs:206-232 | at an undeclared name behind star exports the search moves on, under the same name, to the module the last star export bringing it gives; with no star export bringing it and no dynamic module the name is not found there |
| EsmExport.FollowReexports | turbopack/crates/turbopack-ecmascript/src/references/esm/export.rs:154-240 | the search of follow_reexports within a bound on its steps; FollowReexportsLoop computes it and FollowOutcomes states what each outcome means |
| EsmExport.LastWinsSnoc | turbopack/crates/turbopack-ecmascript/src/references/esm/export.rs:361-373 | a further star export that does not bring a name keeps the last one that did as that name's provider; ExtendStarsLastWins follows from it |
| NextServerResolve.PackagesGlob | crates/next-core/src/next_server/resolve.rs:438-443 | an empty package list gives no globs, any other list gives both |
| NextServerResolve.PackagesGlobAlternatives | crates/next-core/src/next_server/resolve.rs:444-451 | the request glob is one alternation of every package and every package followed by any sub-path; the path glob one alternation of the packages under any node_modules directory |
| NextServerResolve.SinglePackageGlobs | crates/next-core/src/next_server/resolve.rs:444-451 | a single package `p` gives the globs `**/node_modules/{p}/**` and `{p,p/**}` |
| NextServerResolve.MustBeExternal | crates/next-core/src/next_server/resolve.rs:114-158 | AllExcept: may be external (not must) exactly when the lookup is outside node_modules and no exception glob matches; Only: must be external exactly when a listed package's glob matches the path or the request |
| NextServerResolve.FromImporter | crates/next-core/src/next_server/resolve.rs:228-261 | the request resolved from the importing module is the request itself, or, only when it failed and the ESM ".js" fallback applies, the request with ".js" appended; none exactly when both fail |
| NextServerResolve.ResolveFromImporter | crates/next-core/src/next_server/resolve.rs:228-261 | the retry loop computes the same result as the fallback definition, and stops after at most one ".js" is appended |
| NextServerResolve.ComparePackages | crates/next-core/src/next_server/resolve.rs:284-357 | two different resolutions are accepted exactly when both package.json files exist, parse, have a name and a version, and agree on both; otherwise the first failing check, in the source's order, is the reason |
| NextServerResolve.GetFileType | crates/next-core/src/next_server/resolve.rs:172-204 | only .cjs, .node, .json, .mjs and .js are supported; ESM exactly for .mjs or a .js whose package.json has type "module"; invalid exactly for a .js whose package.json does not parse |
| NextServerResolve.ExternalTypeFor | crates/next-core/src/next_server/resolve.rs:361-417 | the external-type table: CommonJS for a CommonJS file unless ESM-imported with a differing CommonJS resolution; ESM for ESM files imported as ESM or listed CommonJS files with a differing resolution; silently bundled for an unlisted one; an error for unsupported, invalid and required ESM files |
| NextServerResolve.UnableToExternalize | crates/next-core/src/next_server/resolve.rs:206-218 | no result, and an issue exactly when the package must be external |
| NextServerResolve.LeftAlone | crates/next-core/src/next_server/resolve.rs:92-110 | non-bare or non-constant requests and never-external requests get no result and no issue |
| NextServerResolve.PredicateExclusions | crates/next-core/src/next_server/resolve.rs:115-158 | AllExcept bundles lookups inside node_modules and listed packages; Only bundles unlisted packages and everything when its list is empty |
| NextServerResolve.IssueOnlyWhenMustBeExternal | crates/next-core/src/next_server/resolve.rs:206-218 | an issue is emitted only for a package listed under Only, never together with a result, and names the request as written before any ".js" |
| NextServerResolve.ExternalIsResolvable | crates/next-core/src/next_server/resolve.rs:228-425 | an external result carries no issue, passed the never-external and predicate checks, is named by the request or the request plus ".js" when the fallback applied, and resolves from the project directory |
| NextServerResolve.EsmImportOfCommonJsBundled | crates/next-core/src/next_server/resolve.rs:376-405 | an ESM import of an unlisted CommonJS file whose CommonJS resolution differs is bundled without an issue |
| NextServerResolve.NoNameOrVersionMessagesSwapped | crates/next-core/src/next_server/resolve.rs:323-344 | as written, the "no name or version" message for the project directory's package does not name the project directory, and the one for the importing module's package does |
| NextServerResolve.MessageNamesFaultySide | crates/next-core/src/next_server/resolve.rs:292-344 | with the corrected wording, every package.json message names the project directory exactly when the package.json at fault was resolved from there |
| NextServerResolve.WithSubpaths | crates/next-core/src/next_server/resolve.rs:449 | each listed package followed by the any-sub-path wildcard, one per package and in order |
| NextServerResolve.JoinConcat | crates/next-core/src/next_server/resolve.rs:449 | joining two non-empty lists with a separator is joining each and putting the separator between them |
| NextServerResolve.JoinSubpaths | crates/next-core/src/next_server/resolve.rs:449 | the packages joined with "/**," and ended by "/**" are the packages with their wildcards joined with commas, the second alternative of the request glob |
| NextServerResolve.PackageJsonMessageAsWritten | crates/next-core/src/next_server/resolve.rs:292-344 | the package.json problem messages as written; NoNameOrVersionMessagesSwapped exhibits the two "no name or version" texts on the wrong sides |
| NextServerResolve.PackageJsonMessage | crates/next-core/src/next_server/resolve.rs:292-344 | the corrected messages; MessageNamesFaultySide proves a message names the project directory exactly when the problem is with the package resolved from there |
| NextServerResolve.NamesProjectDirectory | crates/next-core/src/next_server/resolve.rs:292-344 | a message names the project directory when it contains those words; Named and Unnamed decide it for the message texts |
| NextServerResolve.Named | crates/next-core/src/next_server/resolve.rs:292-344 | a text holding "project directory" names it wherever it stands |
| NextServerResolve.Unnamed | crates/next-core/src/next_server/resolve.rs:292-344 | a text with no letter y cannot name the project directory |
| NextServerResolve.NoY | crates/next-core/src/next_server/resolve.rs:304-328 | the message pieces that do not mention the project directory contain no letter y |
| NextServerResolve.MatchesPackages | crates/next-core/src/next_server/resolve.rs:115-158 | a package list matches when its glob matches the resolved path or the request; PredicateExclusions and IssueOnlyWhenMustBeExternal state what follows from it |
| NextServerResolve.JsFallback | crates/next-core/src/next_server/resolve.rs:239-248 | the ".js" fallback applies to an ESM import of a sub-path that does not already end with ".js"; ExternalIsResolvable proves an appended name comes only from it |
| NextServerResolve.AppendedJs | crates/next-core/src/next_server/resolve.rs:239-248 | a request with ".js" appended ends with ".js", so the fallback never applies twice |
| NextServerResolve.Classify | crates/next-core/src/next_server/resolve.rs:284-425 | the decision after both resolutions; ExternalIsResolvable and EsmImportOfCommonJsBundled state which externals it lets through |
| NextServerResolve.AfterResolveModule | crates/next-core/src/next_server/resolve.rs:85-426 | the outcome for a constant bare request; PredicateExclusions, IssueOnlyWhenMustBeExternal and ExternalIsResolvable state its contract |
| NextServerResolve.AfterResolve | crates/next-core/src/next_server/resolve.rs:85-110 | the plugin's outcome; LeftAlone proves requests that are not constant bare ones, and never-external ones, are bundled |
| Project.Overlay | crates/next-api/src/project.rs:339-391 | each option the partial update carries replaces the stored one; every other option is kept |
| Project.OverlayLaws | crates/next-api/src/project.rs:353-391 | an empty update changes nothing, repeating an update changes nothing more, two updates compose into one where the later option wins |
| Project.ProjectContainer.Initialize | crates/next-api/src/project.rs:310-313 | the container holds exactly the given options |
| Project.ProjectContainer.Update | crates/next-api/src/project.rs:339-391 | before initialisation: the error "ProjectContainer need to be initialized with initialize()" and nothing changes; otherwise the stored options become their overlay with the update |
| Project.PerPageModuleGraph | crates/next-api/src/project.rs:810-813 | one module graph per page exactly in development mode |
| Project.MergeRoutes | crates/next-api/src/project.rs:1239-1276 | the merged routes are the App routes with each Pages route inserted in order; the conflict issues name exactly the pathnames both routers have, in the Pages order |
| Project.MergePagesMeaning | crates/next-api/src/project.rs:1239-1276 | App pathnames first in their order, then new Pages pathnames in theirs; a pathname in both routers becomes a conflict, any other keeps its route |
| Project.MergePagesValid | crates/next-api/src/project.rs:1239-1276 | merging keeps every pathname listed once and exactly the listed ones mapped |
| Project.ConflictsAreShared | crates/next-api/src/project.rs:1247-1270 | a conflict issue is raised for a pathname exactly when both routers have it |
| Project.MiddlewareFor | crates/next-api/src/project.rs:1285-1296 | a middleware exists exactly when its file was found, and it is a proxy exactly when the file's stem is "proxy" |
| Project.GetAllEndpoints | crates/next-api/src/project.rs:869-938 | the endpoints are the middleware's, the instrumentation's, then those of each route in order |
| Project.PushRoute | crates/next-api/src/project.rs:885-934 | one route's endpoints are appended, and the Pages entries flag is set once a Pages route is met outside app-only mode |
| Project.NoPagesEntries | crates/next-api/src/project.rs:885-914 | with app-only mode or no Pages route, each route contributes only its own endpoints and the Pages entries never appear |
| Project.PagesEntriesOnce | crates/next-api/src/project.rs:885-914 | the error, app and document endpoints appear once, right after the first Pages route's main endpoint |
| Project.AfterPagesEntries | crates/next-api/src/project.rs:892-911 | once the Pages entries are added, every further route contributes only its own endpoints |
| Project.ProjectContainer.constructor | crates/next-api/src/project.rs:277-290 | a new container has the given name and no options yet |
| Project.Then | crates/next-api/src/project.rs:339-391 | two partial updates as one, the second one's options winning; OverlayLaws shows applying it equals applying both in turn |
| Project.Replaced | crates/next-api/src/project.rs:353-391 | an option the update carries replaces the current value; an absent one keeps it |
| Project.ValidMap | crates/next-api/src/project.rs:1236-1276 | every pathname is listed once and exactly the listed ones have a route; MergePagesValid shows the merge keeps it |
| Project.InsertPagesRoute | crates/next-api/src/project.rs:1249-1275 | an occupied pathname becomes a conflict in place, a vacant one is appended with the Pages route; MergePagesAppend shows the merge inserts one route at a time |
| Project.MergePages | crates/next-api/src/project.rs:1236-1276 | the routes after inserting the Pages routes one by one; MergePagesDomain, MergePagesMeaning and MergePagesValid state the result |
| Project.NewNames | crates/next-api/src/project.rs:1272-1274 | the Pages pathnames the App router lacks, in order: a name is kept exactly when it is not already present |
| Project.SharedNames | crates/next-api/src/project.rs:1250-1271 | the Pages pathnames the App router also has, in order: a name is kept exactly when it is already present |
| Project.MergePagesDomain | crates/next-api/src/project.rs:1236-1276 | a pathname has a route after the merge exactly when one of the two routers has it |
| Project.NewNamesDistinct | crates/next-api/src/project.rs:1272-1274 | filtering distinct pathnames keeps them distinct |
| Project.ConflictTitle | crates/next-api/src/project.rs:1254-1257 | the title "App Router and Pages Router both match path: <pathname>"; ConflictTitleNamesPath shows it names its path |
| Project.ConflictTitleNamesPath | crates/next-api/src/project.rs:1254-1257 | two conflict titles are equal exactly when their pathnames are |
| Project.Issues | crates/next-api/src/project.rs:1249-1271 | one conflict issue per shared pathname, in order, and only those |
| Project.MergePagesAppend | crates/next-api/src/project.rs:1249-1276 | merging one more Pages route is inserting it into the routes merged so far |
| Project.SharedNamesAppend | crates/next-api/src/project.rs:1250-1271 | one more Pages pathname adds a conflict exactly when the App router has it |
| Project.LeadingEndpoints | crates/next-api/src/project.rs:875-882 | the middleware's endpoint, then the instrumentation's Node.js and edge ones; GetAllEndpoints puts them first |
| Project.PagesEntries | crates/next-api/src/project.rs:892-897 | the error, app and document endpoints; PagesEntriesOnce shows they appear once, after the first Pages route |
| Project.HtmlEndpoints | crates/next-api/src/project.rs:915-924 | one HTML endpoint per App page route, in order |
| Project.IsPagesRoute | crates/next-api/src/project.rs:886-914 | a page or an API route of the Pages Router; NoPagesEntries and PagesEntriesOnce state what the loop does for them |
| Project.OwnEndpoints | crates/next-api/src/project.rs:885-934 | the endpoints one route stands for; NoPagesEntries and AfterPagesEntries show each route contributes them |
| Project.RouteStep | crates/next-api/src/project.rs:885-934 | what the loop pushes for one route; PushRoute computes it |
| Project.AnyPagesRoute | crates/next-api/src/project.rs:884-935 | some route of the list is a Pages route; PagesEntriesOnce and NoPagesEntries state the loop depends only on it |
| Project.RoutesEndpoints | crates/next-api/src/project.rs:884-935 | the endpoints the loop pushes for the routes; NoPagesEntries, PagesEntriesOnce and AfterPagesEntries state them |
| Project.RouteValues | crates/next-api/src/project.rs:884 | the routes in the map's order, one per listed pathname |
| Project.AllEndpoints | crates/next-api/src/project.rs:869-938 | the endpoints of get_all_endpoints; GetAllEndpoints computes it |
| Project.AfterPagesEntriesStep | crates/next-api/src/project.rs:892-911 | after the Pages entries, one more route adds only its own endpoints |
| Project.AnyPagesRouteGrows | crates/next-api/src/project.rs:884-935 | a list with a Pages route keeps one when routes are appended |
| Project.RoutesEndpointsAppend | crates/next-api/src/project.rs:884-935 | one more route adds exactly what the loop pushes for it |
| Project.FlatAppend | crates/next-api/src/project.rs:884-935 | without Pages entries, one more route adds its own endpoints |
| Project.MainEndpoint | crates/next-api/src/project.rs:886-906 | the endpoint a Pages route pushes before the Pages entries: a page's HTML endpoint, an API route's endpoint; PagesEntriesOnce places the entries right after it |
| Project.Flat | crates/next-api/src/project.rs:884-935 | every route's own endpoints in order, with no Pages entries; NoPagesEntries shows the loop pushes exactly these in app-only mode or without a Pages route |
| Project.HtmlEndpointsAppend | crates/next-api/src/project.rs:915-924 | one more App page route adds its HTML endpoint at the end, as the inner loop pushes it |
| NextServerContext.Common | crates/next-core/src/next_server/context.rs:183-186 | exactly the packages listed on both sides, in the first list's order |
| NextServerContext.Without | crates/next-core/src/next_server/context.rs:199 | exactly the packages of the first list that the second does not list |
| NextServerContext.ConflictingPackages | crates/next-core/src/next_server/context.rs:183-186 | the transpiled packages that are also configured server-external, in order |
| NextServerContext.Retain | crates/next-core/src/next_server/context.rs:199 | the packages that are not transpiled, in order |
| NextServerContext.ExternalPackages | crates/next-core/src/next_server/context.rs:164-199 | an error naming the conflicting packages exactly when a transpiled or import-optimised package is also configured server-external; otherwise the predefined and configured external packages less the transpiled ones |
| NextServerContext.ExternalsKeepConfigured | crates/next-core/src/next_server/context.rs:183-199 | without a conflict every configured server-external package stays in the list and no transpiled package is in it |
| NextServerContext.CustomConditions | crates/next-core/src/next_server/context.rs:210-219 | the mode's conditions, then "node", then "react-server" exactly for the server-component contexts, then "next-js" exactly with cache components |
| NextServerContext.BeforeResolvePlugins | crates/next-core/src/next_server/context.rs:237-313 | the local-font plugin for Pages, App SSR and RSC contexts, the feature report always, and the client-only and styled-jsx guards last exactly for the contexts using the react-server condition |
| NextServerContext.AfterResolvePlugins | crates/next-core/src/next_server/context.rs:221-285 | shared runtime, externals, next externals; the externals plugin picks all but the transpiled packages exactly for Pages contexts that do not bundle their dependencies, and only the external list otherwise |
| NextServerContext.ExternalsPluginSelection | crates/next-core/src/next_server/context.rs:164-285 | in every context the externals plugin never picks a transpiled package and, without a conflict, always picks a configured server-external one |
| NextServerContext.ShouldUseReactServerCondition | crates/next-core/src/next_server/context.rs:113-121 | the server contexts that resolve with the react-server condition; CustomConditions and BeforeResolvePlugins prove that condition and the client-only check are added exactly for them |
| NextServerContext.DebugList | crates/next-core/src/next_server/context.rs:188-193 | the package names quoted, comma separated and in brackets, as the conflict error prints them; ExternalPackages states the error names the conflicting packages this way |
| NextServerContext.Selects | crates/next-core/src/next_server/context.rs:221-285 | the packages an externals predicate picks; ExternalsPluginSelection proves it never picks a transpiled package and picks every configured external when nothing conflicts |
| Turbopack.ReplaceExternal | turbopack/crates/turbopack/src/lib.rs:1042-1072 | URL externals are not replaced; every other external becomes a cached external of the same request, whose type maps back to the resolved type, loaded by `import()` exactly when imports of externals are enabled, and async exactly for such imports and for scripts |
| Turbopack.SideEffectFreePackages | turbopack/crates/turbopack/src/lib.rs:955-964 | the glob of the side-effect-free packages is the same path glob the externals code builds for a non-empty list, and matches no package for an empty one |
| Turbopack.ExtendModuleType | turbopack/crates/turbopack/src/lib.rs:594-700 | extra ECMAScript transforms go before the existing pre-processing and main transforms and after the post-processing ones; a refusing custom type, a type that is not ECMAScript or TypeScript, and a missing type each keep the type and emit their issue |
| Turbopack.ExtendTwice | turbopack/crates/turbopack/src/lib.rs:594-632 | two extensions in a row equal one whose pre-processing and main transforms are the later rule's followed by the earlier one's, and whose post-processing is the earlier rule's followed by the later one's |
| Turbopack.RestartIsUnprocessed | turbopack/crates/turbopack/src/lib.rs:548-591 | a rerun after a changed ident is always triggered by a rule that had not been processed, so the recursion ends |
| Turbopack.ProcessDefault | turbopack/crates/turbopack/src/lib.rs:507-720 | the loop over the rules and their effects gives the result and the issues of the rule-loop specification |
| Turbopack.JsonAttributeFixesType | turbopack/crates/turbopack/src/lib.rs:533-552 | with a `json` type attribute every rule is passed over and the source becomes a JSON module as it is, without issues |
| Turbopack.NoRuleApplies | turbopack/crates/turbopack/src/lib.rs:548-556 | when no rule applies the source is unknown, or a JSON module under a `json` attribute |
| Turbopack.FirstRuleIgnores | turbopack/crates/turbopack/src/lib.rs:556-560 | an `Ignore` effect in the first rule that applies ignores the source |
| Turbopack.FirstRuleRestarts | turbopack/crates/turbopack/src/lib.rs:561-591 | a transform that changes the ident, with no transition for the new source, reruns the rules on the new source with that rule marked as processed |
| Turbopack.TypeRulesKeepSource | turbopack/crates/turbopack/src/lib.rs:548-712 | rules that only set or extend module types keep the source: it becomes a module or stays unknown |
| Turbopack.SourceType | turbopack/crates/turbopack/src/lib.rs:1047-1062 | the external type each cached external type comes from; ReplaceExternal states the cached module's type maps back to the one resolved |
| Turbopack.ApplyEffect | turbopack/crates/turbopack/src/lib.rs:556-700 | one effect: `Ignore` stops, a transform that changes the ident goes through a transition or restarts, a module type is set, transforms are extended; FirstRuleIgnores and FirstRuleRestarts state what the loop returns |
| Turbopack.ApplyEffects | turbopack/crates/turbopack/src/lib.rs:555-702 | the effects of a rule in order, up to the first that ends the loop; EffectsStopPersist states later effects change nothing |
| Turbopack.Skipped | turbopack/crates/turbopack/src/lib.rs:548-555 | a rule is passed over once a type attribute fixed the type, when already processed, or when it does not match; AllSkipped states such rules change nothing |
| Turbopack.RunRules | turbopack/crates/turbopack/src/lib.rs:548-705 | the loop over the rules; RulesStopPersist and Stopped state how it ends |
| Turbopack.AttributeType | turbopack/crates/turbopack/src/lib.rs:535-546 | a `json` type attribute fixes the JSON module type, `bytes` fixes none; JsonAttributeFixesType states the result |
| Turbopack.Unprocessed | turbopack/crates/turbopack/src/lib.rs:551-553 | the rules a rerun may still apply; UnprocessedShrinks states each restart lowers their number |
| Turbopack.Finish | turbopack/crates/turbopack/src/lib.rs:707-709 | no module type leaves the source unknown, otherwise it becomes a module of that type; NoRuleApplies states when |
| Turbopack.Process | turbopack/crates/turbopack/src/lib.rs:507-720 | `process_default`; ProcessDefault ensures the loop computes it, and the Turbopack lemmas state its outcomes |
| Turbopack.UnprocessedShrinks | turbopack/crates/turbopack/src/lib.rs:578-580 | marking a rule processed strictly lowers the number of unprocessed rules, so the reruns end |
| Turbopack.EffectsRestartAt | turbopack/crates/turbopack/src/lib.rs:578-587 | a rerun from a rule's effects names that rule |
| Turbopack.EffectsStopPersist | turbopack/crates/turbopack/src/lib.rs:556-700 | once an effect ends the loop, the rule's later effects change nothing |
| Turbopack.RulesStopPersist | turbopack/crates/turbopack/src/lib.rs:548-703 | once a rule ends the loop, later rules change nothing |
| Turbopack.Stopped | turbopack/crates/turbopack/src/lib.rs:548-703 | an effect that ends the loop gives the loop's result |
| Turbopack.AllSkipped | turbopack/crates/turbopack/src/lib.rs:548-555 | rules that are all passed over leave the state as it was |
| Turbopack.TypeEffect | turbopack/crates/turbopack/src/lib.rs:589-700 | an effect that only sets or extends the module type |
| Turbopack.TypeEffectsContinue | turbopack/crates/turbopack/src/lib.rs:589-700 | type effects never end the loop, keep the source and only add issues |
| Turbopack.TypeRulesContinue | turbopack/crates/turbopack/src/lib.rs:548-703 | rules with only type effects never end the loop and keep the source |
| ModuleOptions.GlobConditionEval | turbopack/crates/turbopack/src/module_options/mod.rs:66-78 | a glob with a '/' matches the path relative to the project, one without matches the file name |
| ModuleOptions.FromWebpack | turbopack/crates/turbopack/src/module_options/mod.rs:80-138 | the conversion fails exactly when the condition names an unknown built-in condition |
| ModuleOptions.FromWebpackEach | turbopack/crates/turbopack/src/module_options/mod.rs:86-103 | the items are converted in order; the list fails exactly when one of its items names an unknown built-in condition |
| ModuleOptions.FromWebpackEval | turbopack/crates/turbopack/src/module_options/mod.rs:80-138 | a converted condition, evaluated on a source with text or missing content, holds exactly when the webpack condition does: All, Any and Not as logic, a built-in by the set, a base item when its path and content tests hold |
| ModuleOptions.BaseEval | turbopack/crates/turbopack/src/module_options/mod.rs:122-135 | a base item's conjunction holds exactly when its optional path test and its optional content test hold |
| ModuleOptions.FirstMatch | turbopack/crates/turbopack/src/module_options/mod.rs:161-171 | the index of the first context rule whose condition matches the path, none when no condition matches |
| ModuleOptions.SelectContext | turbopack/crates/turbopack/src/module_options/mod.rs:161-171 | the loop over the context rules returns the first match |
| ModuleOptions.NeedPathSuffices | turbopack/crates/turbopack/src/module_options/mod.rs:174-191 | passing the path only where a package is resolved from it gives the same rules as always passing it |
| ModuleOptions.RuleOrder | turbopack/crates/turbopack/src/module_options/mod.rs:326-814 | the TypeScript rules come first, then the thirteen default rules; the extra module rules come last; no webpack loader rule has the condition False |
| ModuleOptions.DroppedLoaderNeverMatches | turbopack/crates/turbopack/src/module_options/mod.rs:610-614 | a loader rule is dropped only when its condition can never hold, and a kept rule's flattened condition holds exactly where the unflattened one does |
| ModuleOptions.LoaderRuleFor | turbopack/crates/turbopack/src/module_options/mod.rs:587-637 | one loader rule: the first error of its condition, else the rule with its flattened condition, or nothing when that is False |
| ModuleOptions.PushLoaderRules | turbopack/crates/turbopack/src/module_options/mod.rs:565-638 | the loader rules are pushed in order after the execution-context and path checks; the first failure is the result |
| ModuleOptions.PushCssRules | turbopack/crates/turbopack/src/module_options/mod.rs:640-770 | the raw CSS rules, or the optional PostCSS rule followed by the five CSS rules, after the execution-context and path checks |
| ModuleOptions.NewInternal | turbopack/crates/turbopack/src/module_options/mod.rs:194-817 | the rule list built by splicing, pushing and extending is the specified one, or its first error |
| ModuleOptions.GlobCondition | turbopack/crates/turbopack/src/module_options/mod.rs:66-78 | the condition a glob becomes; GlobConditionEval states it matches the project-relative path or the file name |
| ModuleOptions.HasInvalidBuiltin | turbopack/crates/turbopack/src/module_options/mod.rs:80-138 | the only failure of the conversion: a built-in condition the set does not know, anywhere in the item; FromWebpack's ensures states the iff |
| ModuleOptions.BaseConditions | turbopack/crates/turbopack/src/module_options/mod.rs:122-135 | a base item's path test then its content test; BaseEval states their conjunction is the item's meaning |
| ModuleOptions.Holds | turbopack/crates/turbopack/src/module_options/mod.rs:80-138 | the meaning of a webpack condition on a source; FromWebpackEval states the converted condition evaluates to it |
| ModuleOptions.FromWebpackEachEval | turbopack/crates/turbopack/src/module_options/mod.rs:86-103 | the converted list under `All` or `Any` evaluates to the conjunction or disjunction of the items' meanings |
| ModuleOptions.PathConditionsEval | turbopack/crates/turbopack/src/module_options/mod.rs:122-135 | a base item's path condition evaluates to its path test |
| ModuleOptions.FirstMatchIs | turbopack/crates/turbopack/src/module_options/mod.rs:161-171 | the first match is the index where the conditions first hold, or none when none holds |
| ModuleOptions.NeedPath | turbopack/crates/turbopack/src/module_options/mod.rs:173-186 | `need_path`: PostCSS without a package when raw CSS is off, or webpack loaders without a runner package; NeedPathSuffices states it is enough |
| ModuleOptions.New | turbopack/crates/turbopack/src/module_options/mod.rs:148-192 | `ModuleOptions::new`: NewDecidedBy states the first matching nested context decides, else this context's rules with the path |
| ModuleOptions.NewDecidedBy | turbopack/crates/turbopack/src/module_options/mod.rs:148-192 | the first nested context whose condition holds gives the rules; with none, the rules equal those built with the path always given |
| ModuleOptions.DefaultRules | turbopack/crates/turbopack/src/module_options/mod.rs:327-463 | the thirteen default rules, all of the default kind |
| ModuleOptions.TypeScriptRules | turbopack/crates/turbopack/src/module_options/mod.rs:465-563 | the six TypeScript rules when the transform is on, none otherwise |
| ModuleOptions.ModuleCssCondition | turbopack/crates/turbopack/src/module_options/mod.rs:235-240 | the configured CSS module condition, else a `.module.css` path or a `text/css+module` content type |
| ModuleOptions.LoaderCondition | turbopack/crates/turbopack/src/module_options/mod.rs:587-613 | a loader rule's condition: its glob, its own converted condition, not a virtual source, and the CSS-module guard; DroppedLoaderNeverMatches states what dropping it loses |
| ModuleOptions.LoaderRules | turbopack/crates/turbopack/src/module_options/mod.rs:587-637 | the loader rules in order, none with the condition `False`; LoaderErrorPersists states the first failure is the result |
| ModuleOptions.LoaderErrorPersists | turbopack/crates/turbopack/src/module_options/mod.rs:587-637 | a failing loader condition makes the whole list fail with that error |
| ModuleOptions.LoaderSection | turbopack/crates/turbopack/src/module_options/mod.rs:565-638 | no loader rules without loaders; the execution-context and need-path errors; else the loader rules; PushLoaderRules ensures the loop builds it |
| ModuleOptions.CssSection | turbopack/crates/turbopack/src/module_options/mod.rs:640-770 | the raw CSS rules, or the CSS module rules with PostCSS first when configured, with its errors; PushCssRules ensures the code builds it |
| ModuleOptions.CustomRules | turbopack/crates/turbopack/src/module_options/mod.rs:814 | the extra module rules, in order, after everything else |
| ModuleOptions.Rules | turbopack/crates/turbopack/src/module_options/mod.rs:195-817 | the rule list of one context; RuleOrder states its order and NewInternal that the code builds it |
| ModuleOptions.Sections | turbopack/crates/turbopack/src/module_options/mod.rs:195-817 | where the six parts of the rule list lie and that nothing else is in it |
| ModuleOptions.ModuleCssExternal | turbopack/crates/turbopack/src/module_options/mod.rs:253-257 | the guard added to loader and PostCSS rules: not a CSS module, or a CSS module referenced as its inner or analysed part; LoaderCondition and DroppedLoaderNeverMatches are stated with it |
| ModuleOptions.LoaderRuleOf | turbopack/crates/turbopack/src/module_options/mod.rs:609-636 | one loader rule with its flattened condition, or no rule when that condition is `False`; LoaderRules and DroppedLoaderNeverMatches state that no kept rule has `False` and that dropping loses no match |
| ModuleOptions.ModuleCssRules | turbopack/crates/turbopack/src/module_options/mod.rs:707-769 | the five CSS rules in order: plain CSS, CSS module, CSS module imported with @import, the inner part and the analysed part; PushCssRules builds the section that holds them |
| ModuleOptions.MdxRules | turbopack/crates/turbopack/src/module_options/mod.rs:772-812 | the MDX rule when either MDX switch (`enable_mdx`, `enable_mdx_rs`) is on, else none; RuleOrder and Sections place it before the extra module rules |
| ModuleOptions.AnyInvalidBuiltin | turbopack/crates/turbopack/src/module_options/mod.rs:86-103 | some item of the list names an unknown built-in condition; FromWebpackEach fails exactly then |
| ModuleOptions.HoldsAll | turbopack/crates/turbopack/src/module_options/mod.rs:86-94 | all items of an `All` condition hold; FromWebpackEachEval states the converted list under `All` means it |
| ModuleOptions.HoldsAny | turbopack/crates/turbopack/src/module_options/mod.rs:95-103 | some item of an `Any` condition holds; FromWebpackEachEval states the converted list under `Any` means it |
| ModuleOptions.PathHolds | turbopack/crates/turbopack/src/module_options/mod.rs:122-135 | a base item's path test: a regular expression on the path, or a glob on the project-relative path or the file name; PathConditionsEval states the converted condition means it |
| ModuleOptions.ContentHolds | turbopack/crates/turbopack/src/module_options/mod.rs:122-135 | a base item's content test: a regular expression on the text content, false without text; BaseEval states the conjunction with the path test |
| SourceMapUtils.IgnoredIds | turbopack/crates/turbopack-core/src/source_map/utils.rs:17-29 | an id is collected exactly when it indexes a source that starts with the protocol's `[next]` or `[turbopack]` prefix, contains `/node_modules/`, or ends with an internal proxy name |
| SourceMapUtils.RuntimeAndPackageSourcesIgnored | turbopack/crates/turbopack-core/src/source_map/utils.rs:21-23 | every source under the `[next]` or `[turbopack]` prefix and every source inside `node_modules` is ignored |
| SourceMapUtils.ProjectSourceIgnored | turbopack/crates/turbopack-core/src/source_map/utils.rs:21-25 | a `[project]` source never matches the runtime prefixes: it is ignored exactly when it is inside `node_modules` or an internal proxy |
| SourceMapUtils.CollectIgnored | turbopack/crates/turbopack-core/src/source_map/utils.rs:18-29 | the first loop collects exactly the ids of the ignored sources |
| SourceMapUtils.SourceMap.AddAllToIgnoreList | turbopack/crates/turbopack-core/src/source_map/utils.rs:31-33 | the second loop adds every collected id to the ignore list and leaves the sources alone |
| SourceMapUtils.SourceMap.AddDefaultIgnoreList | turbopack/crates/turbopack-core/src/source_map/utils.rs:17-34 | the ignore list grows by exactly the ids of the ignored sources; the sources are unchanged |
| SourceMapUtils.MapAllOk | turbopack/crates/turbopack-core/src/source_map/utils.rs:184-189 | a loop that propagates errors succeeds exactly when every step succeeds, and then yields each step's result in order |
| SourceMapUtils.MapAllErrPersists | turbopack/crates/turbopack-core/src/source_map/utils.rs:184-189 | once a prefix of the loop fails, the loop fails with that same first error |
| SourceMapUtils.FileUrlCandidate | turbopack/crates/turbopack-core/src/source_map/utils.rs:101-111 | a scheme-relative `//x` and a server-relative `/x` both become `file:///x` (three slashes); anything else is parsed as it is |
| SourceMapUtils.SourcePath | turbopack/crates/turbopack-core/src/source_map/utils.rs:113-131 | no file exactly for an absolute URL of another scheme; a file URL on a file system that is not on disk cannot be placed; a relative source is percent-decoded (kept as is when decoding fails) and joined to the origin's parent; every file found is on the origin's file system |
| SourceMapUtils.SanitizeDots | turbopack/crates/turbopack-core/src/source_map/utils.rs:164-167 | the URL keeps its segments, with every `.` and `..` segment turned into `_` and `__`, so no segment of the result is `.` or `..` |
| SourceMapUtils.ResolveSource | turbopack/crates/turbopack-core/src/source_map/utils.rs:96-171 | non-file absolute URLs and their content are untouched; the only error is a missing content whose file is not text; a present content is never replaced and a missing one is always filled; every rewritten URL starts with the protocol's `///[fs]/` prefix and names the file's path, or, for a source leaving the root, the origin's path followed by the sanitised URL with an "unable to access" content |
| SourceMapUtils.ResolveEntry | turbopack/crates/turbopack-core/src/source_map/utils.rs:182-188 | a missing source keeps its content, a present source stays present, and a present content is kept |
| SourceMapUtils.EntryOutcomeOf | turbopack/crates/turbopack-core/src/source_map/utils.rs:182-188 | each present source becomes the resolution of the source root concatenated literally with it, a missing source keeps its content, and a present content is never replaced |
| SourceMapUtils.ResolvedMapShape | turbopack/crates/turbopack-core/src/source_map/utils.rs:173-195 | after `resolve_map` the source root is gone, there is exactly one content per source, each pair changes as above, and file, sections and the other fields are unchanged |
| SourceMapUtils.ResolveOneEntry | turbopack/crates/turbopack-core/src/source_map/utils.rs:182-188 | the loop body computes the resolution of one source and content |
| SourceMapUtils.ResolveEntriesInPlace | turbopack/crates/turbopack-core/src/source_map/utils.rs:174-189 | resolving in place gives the sources and contents of the pairwise resolution, or its first error |
| SourceMapUtils.ResolveMap | turbopack/crates/turbopack-core/src/source_map/utils.rs:173-195 | the map with contents resized to the number of sources (missing ones None), sources resolved in place and source root cleared, or the first error; a map without sources is unchanged |
| SourceMapUtils.ResolveSection | turbopack/crates/turbopack-core/src/source_map/utils.rs:211-213 | one section's map resolved |
| SourceMapUtils.ResolveSections | turbopack/crates/turbopack-core/src/source_map/utils.rs:211-213 | every section resolved in order, stopping at the first error |
| SourceMapUtils.SourceMapSourcesResolved | turbopack/crates/turbopack-core/src/source_map/utils.rs:197-204 | no map and a map that is not valid JSON both give no map |
| SourceMapUtils.SectionsResolved | turbopack/crates/turbopack-core/src/source_map/utils.rs:206-214 | each section keeps its offset, has its own map resolved (no source root, one content per source) and keeps its own sections untouched: resolution goes one level deep |
| SourceMapUtils.ResolveSourceMapSources | turbopack/crates/turbopack-core/src/source_map/utils.rs:82-217 | the file (without a content slot), the map and its sections are resolved in that order |
| SourceMapUtils.FileifySource | turbopack/crates/turbopack-core/src/source_map/utils.rs:248-255 | a source that does not start with the `///[fs]/` prefix, or is missing, is unchanged |
| SourceMapUtils.Fileified | turbopack/crates/turbopack-core/src/source_map/utils.rs:229-246 | no map or invalid JSON gives no map; a context whose file system is not on disk is an error |
| SourceMapUtils.FileifyResolvedSource | turbopack/crates/turbopack-core/src/source_map/utils.rs:134-139 | a source resolved into a file system is turned by the fileify step for that file system into the file URI of exactly the resolved path |
| SourceMapUtils.FileifySources | turbopack/crates/turbopack-core/src/source_map/utils.rs:257-259 | the sources transformed in place, stopping at the first error |
| SourceMapUtils.FileifyOneSection | turbopack/crates/turbopack-core/src/source_map/utils.rs:261-263 | one section's sources transformed |
| SourceMapUtils.FileifySourceMap | turbopack/crates/turbopack-core/src/source_map/utils.rs:229-269 | the sources and then the sections' sources transformed, or the first error |
| SourceMapUtils.SourceMap.AddToIgnoreList | turbopack/crates/turbopack-core/src/source_map/utils.rs:31-33 | adding one id puts it in the ignore list and leaves the sources alone |
| SourceMapUtils.IsIgnoredSource | turbopack/crates/turbopack-core/src/source_map/utils.rs:21-25 | a source is ignored when it is Next.js or Turbopack runtime code, inside `node_modules`, or an internal proxy; IgnoredIds states exactly those ids are collected |
| SourceMapUtils.SourcePrefix | turbopack/crates/turbopack-core/src/source_map/utils.rs:139 | the start of every source URL of one file system; ResolveSource states every resolved source starts with it |
| SourceMapUtils.SanitizeSegment | turbopack/crates/turbopack-core/src/source_map/utils.rs:164-167 | a `.` or `..` segment becomes `_` or `__`: no result is `.` or `..`, and no `/` is added |
| SourceMapUtils.SanitizeSegments | turbopack/crates/turbopack-core/src/source_map/utils.rs:164-167 | each segment sanitized in place, the count kept |
| SourceMapUtils.UnableToRead | turbopack/crates/turbopack-core/src/source_map/utils.rs:146-151 | the content written for a source file that does not exist; ResolveSource states where it is used |
| SourceMapUtils.UnableToAccess | turbopack/crates/turbopack-core/src/source_map/utils.rs:156-162 | the content written for a source outside the file system root; ResolveSource states where it is used |
| SourceMapUtils.WithRoot | turbopack/crates/turbopack-core/src/source_map/utils.rs:183-186 | the source root is put literally before the source; EntryOutcome states the resolution is of that URL |
| SourceMapUtils.Resize | turbopack/crates/turbopack-core/src/source_map/utils.rs:176-180 | `resize` with None: exactly `n` contents, the old ones kept and the rest missing |
| SourceMapUtils.StartContents | turbopack/crates/turbopack-core/src/source_map/utils.rs:176-180 | the contents resolving starts from, one per source |
| SourceMapUtils.ResolvedEntries | turbopack/crates/turbopack-core/src/source_map/utils.rs:182-189 | every pair resolved in order; ResolvedEntriesStep and ResolvedEntriesStop state how the loop reaches it |
| SourceMapUtils.ResolvedEntriesStep | turbopack/crates/turbopack-core/src/source_map/utils.rs:182-189 | one more resolved pair extends the resolution of the prefix |
| SourceMapUtils.ResolvedEntriesStop | turbopack/crates/turbopack-core/src/source_map/utils.rs:182-189 | a pair that fails makes the whole resolution fail with its error |
| SourceMapUtils.ResolvedMap | turbopack/crates/turbopack-core/src/source_map/utils.rs:173-195 | the map with every source resolved, contents filled and no source root; ResolvedMapShape states it |
| SourceMapUtils.EntryOutcome | turbopack/crates/turbopack-core/src/source_map/utils.rs:182-188 | what each pair becomes: the resolution of root plus source, a missing source untouched, a present content never replaced; EntryOutcomeOf states every pair meets it |
| SourceMapUtils.FirstsSecondsOf | turbopack/crates/turbopack-core/src/source_map/utils.rs:182-192 | the two loops' vectors are the components of the resolved pairs |
| SourceMapUtils.ResolvedSections | turbopack/crates/turbopack-core/src/source_map/utils.rs:211-213 | every section resolved in order; SectionsResolved states what each becomes |
| SourceMapUtils.ResolvedFile | turbopack/crates/turbopack-core/src/source_map/utils.rs:206-209 | the map's `file` resolved with no content slot |
| SourceMapUtils.FileifiedSources | turbopack/crates/turbopack-core/src/source_map/utils.rs:257-259 | every source fileified in order; FileifySources ensures the loop computes it |
| SourceMapUtils.FileifyMap | turbopack/crates/turbopack-core/src/source_map/utils.rs:257-259 | a map's sources fileified, nothing else changed |
| SourceMapUtils.FileifiedSections | turbopack/crates/turbopack-core/src/source_map/utils.rs:261-263 | every section's sources fileified in order; FileifySourceMap ensures the code computes it |
| SourceMapUtils.SourceMap.constructor | turbopack/crates/turbopack-core/src/source_map/utils.rs:17 | a map with the given sources and no ignored ids; AddDefaultIgnoreList is stated for any ignore list the map already has |
| SourceMapUtils.ResolvedSection | turbopack/crates/turbopack-core/src/source_map/utils.rs:211-213 | one section with its map resolved, the first error of the map being the result; SectionsResolved states what each section becomes |
| SourceMapUtils.FileifySection | turbopack/crates/turbopack-core/src/source_map/utils.rs:260-264 | one section with its map's sources fileified, the first error being the result; FileifySourceMap ensures the code computes the sections so |
| ExternalModule.TypeNameInjective | turbopack/crates/turbopack-ecmascript/src/references/external_module.rs:71-81 | the five external types have five different display names |
| ExternalModule.ScriptParts | turbopack/crates/turbopack-ecmascript/src/references/external_module.rs:128-131 | a script request splits at its first '@' into a variable without '@' and a URL that rejoin to the request; no split exactly when the request has no '@' |
| ExternalModule.ScriptPartsRoundTrip | turbopack/crates/turbopack-ecmascript/src/references/external_module.rs:128-131 | splitting `variable@url` with an '@'-free variable gives back the variable and the URL |
| ExternalModule.WriteBinding | turbopack/crates/turbopack-ecmascript/src/references/external_module.rs:108-186 | the lines that bind `mod` are those of the external's type, every request, URL and variable written as a JSON string literal that reads back as itself (ExternalModule.EscapeRoundTrip) |
| ExternalModule.Content | turbopack/crates/turbopack-ecmascript/src/references/external_module.rs:104-207 | the code is the binding lines, an empty line and the export line; it is an ES module exactly when the type is not CommonJS; strings in it are quoted with serde_json's escaping |
| ExternalModule.ScriptBinding | turbopack/crates/turbopack-ecmascript/src/references/external_module.rs:128-181 | a script external loads the URL after the first '@' and reads the global named before it; a request without '@' throws and leaves `mod` undefined; the URL and the variable are quoted with `StringifyJs` |
| ExternalModule.ExportTails | turbopack/crates/turbopack-ecmascript/src/references/external_module.rs:194-202 | the export line is `module.exports = mod;` exactly for CommonJS and the namespace export exactly for the two ECMAScript types |
| ExternalModule.GetExports | turbopack/crates/turbopack-ecmascript/src/references/external_module.rs:331-338 | CommonJS exports exactly for the CommonJS type, a dynamic namespace otherwise |
| ExternalModule.AsyncAgrees | turbopack/crates/turbopack-ecmascript/src/references/external_module.rs:293-299 | the module is async exactly when it has an async-module record, which always has top-level await and imports externals exactly for ECMAScript imports |
| ExternalModule.TypeName | turbopack/crates/turbopack-ecmascript/src/references/external_module.rs:71-81 | the display name of each external type; ExternalModule.TypeNameInjective proves the five names distinct |
| ExternalModule.EscapeChar | turbopack/crates/turbopack-ecmascript/src/references/external_module.rs:110-115 | one character as serde_json writes it inside a string literal: `"` and `\\` behind a backslash, the control characters below U+0020 as `\b \t \n \f \r` or `\u00XX`, every other character as it is (written as is exactly when it is none of those) |
| ExternalModule.EscapeJs | turbopack/crates/turbopack-ecmascript/src/references/external_module.rs:110-115 | the escaped body of a string literal is at least as long as the string and holds no raw control character |
| ExternalModule.StringifyJs | turbopack/crates/turbopack-ecmascript/src/references/external_module.rs:110-115 | `StringifyJs` of a request: the escaped body between double quotes; ExternalModule.EscapeRoundTrip proves the body reads back as the request |
| ExternalModule.Unescape | turbopack/crates/turbopack-ecmascript/src/references/external_module.rs:110-115 | an independent JSON string reader (escapes decoded; a raw quote, a raw control character or a bad escape rejected), the partner of the escaping in ExternalModule.EscapeRoundTrip |
| ExternalModule.UnescapeEscapeChar | turbopack/crates/turbopack-ecmascript/src/references/external_module.rs:110-115 | reading back one escaped character consumes exactly its escape and gives the character |
| ExternalModule.EscapeRoundTrip | turbopack/crates/turbopack-ecmascript/src/references/external_module.rs:108-186 | every string written into the generated code through `StringifyJs` reads back, by a JSON reader, as exactly that string: no raw quote or control character is left in the literal |
| ExternalModule.EscapePlain | turbopack/crates/turbopack-ecmascript/src/references/external_module.rs:110-115 | a request without quotes, backslashes or control characters is written as it is |
| ExternalModule.ControlEscapes | turbopack/crates/turbopack-ecmascript/src/references/external_module.rs:110-115 | a newline is written `\n`, a tab `\t`, U+0001 `\u0001` and U+001F `\u001f` |
| ExternalModule.ImportBinding | turbopack/crates/turbopack-ecmascript/src/references/external_module.rs:110-116 | the `import()` binding line of an ECMAScript-via-import external; its place in the code is stated by ExternalModule.WriteBinding |
| ExternalModule.GlobalBinding | turbopack/crates/turbopack-ecmascript/src/references/external_module.rs:117-127 | the binding line of a global external: an empty object for an empty request, else the named global; stated through ExternalModule.WriteBinding |
| ExternalModule.RequireBinding | turbopack/crates/turbopack-ecmascript/src/references/external_module.rs:182-189 | the `require` binding line shared by CommonJS and ECMAScript-via-require externals; stated through ExternalModule.WriteBinding |
| ExternalModule.ScriptLines | turbopack/crates/turbopack-ecmascript/src/references/external_module.rs:131-170 | the ten lines of a script external: load the URL, check and read the global variable, rethrow with the request named; ExternalModule.ScriptBinding states which lines carry the URL and the variable |
| ExternalModule.InvalidScriptLines | turbopack/crates/turbopack-ecmascript/src/references/external_module.rs:171-180 | the two lines for a script request without '@': throw the format error naming the request, and leave `mod` undefined |
| ExternalModule.BindingLines | turbopack/crates/turbopack-ecmascript/src/references/external_module.rs:108-186 | the lines that bind `mod`, never empty, chosen by the external type |
| ExternalModule.ExportTail | turbopack/crates/turbopack-ecmascript/src/references/external_module.rs:194-202 | the export line by type; ExternalModule.ExportTails proves each line belongs to exactly its types |
| ExternalModule.IsSelfAsync | turbopack/crates/turbopack-ecmascript/src/references/external_module.rs:293-299 | `is_self_async`: true exactly for ECMAScript-via-import and script externals; ExternalModule.AsyncAgrees ties it to the async-module record |
| ExternalModule.GetAsyncModule | turbopack/crates/turbopack-ecmascript/src/references/external_module.rs:340-358 | `get_async_module`: an async-module record exactly for ECMAScript-via-import and script externals; stated by ExternalModule.AsyncAgrees |
| ExternalModule.HexDigitOf | turbopack/crates/turbopack-ecmascript/src/references/external_module.rs:110-115 | the value of a hexadecimal digit of either case, none for any other character; UnescapeEscapeChar relies on it to read the control escapes back |
| ExternalModule.UnicodeEscape | turbopack/crates/turbopack-ecmascript/src/references/external_module.rs:110-115 | the character of a four-digit unicode escape below the surrogates; ControlEscapes and EscapeRoundTrip prove the escapes written for control characters read back as them |
| ExternalModule.DecodeEscape | turbopack/crates/turbopack-ecmascript/src/references/external_module.rs:110-115 | one escape read back with the number of characters it takes, never more than remain; UnescapeEscapeChar proves it inverts the escape of each character |
| ExternalModule.Cons | turbopack/crates/turbopack-ecmascript/src/references/external_module.rs:110-115 | a character put before a read-back text, failure staying failure; Unescape builds its result with it and EscapeRoundTrip proves the result is the original text |
| Manager.ShouldTrackCases | turbopack/crates/turbo-tasks/src/manager.rs:318-326 | a tracked read is always recorded, an untracked one never, one tracked only on error exactly when it failed; recording on success implies recording on error |
| Manager.TrackingNameInjective | turbopack/crates/turbo-tasks/src/manager.rs:328-336 | the three tracking modes display as three different texts |
| Manager.Allocate | turbopack/crates/turbo-tasks/src/manager.rs:1911-1914 | a cell gets its type's current counter (0 for an unused type) as index, that counter grows by one and every other type's counter is unchanged |
| Manager.CountersAfterCount | turbopack/crates/turbo-tasks/src/manager.rs:1907-1920 | after a run of cell allocations each type's counter has grown by exactly the number of cells of that type allocated |
| Manager.AllocationsNumberPerType | turbopack/crates/turbo-tasks/src/manager.rs:1907-1920 | the k-th cell allocated gets the starting counter of its type plus the number of earlier cells of the same type, whatever other types are interleaved |
| Manager.AllocationsLength | turbopack/crates/turbo-tasks/src/manager.rs:1907-1920 | a run of allocations returns one index per cell |
| Manager.CurrentTaskState.constructor | turbopack/crates/turbo-tasks/src/manager.rs:394-404 | a new task state belongs to its task and execution, is neither stateful nor invalidatable, and starts with empty cell counters and no local tasks |
| Manager.CurrentTaskState.Temporary | turbopack/crates/turbo-tasks/src/manager.rs:406-416 | a temporary state has no task and no cell counters |
| Manager.CurrentTaskState.AssertExecutionId | turbopack/crates/turbo-tasks/src/manager.rs:418-425 | succeeds exactly when the expected execution is the state's own, and otherwise fails with the scheduling message |
| Manager.CurrentTaskState.LocalTaskOf | turbopack/crates/turbo-tasks/src/manager.rs:437-440 | a one-based id finds a local task exactly when it is between 1 and the number of local tasks, and finds the task at position id-1 |
| Manager.CurrentTaskState.CreateLocalTask | turbopack/crates/turbo-tasks/src/manager.rs:427-435 | the task is appended, its id is the new length (at least 1) and finds it, ids handed out earlier still find their tasks, and nothing else changes |
| Manager.CurrentTaskState.ReplaceLocalTask | turbopack/crates/turbo-tasks/src/manager.rs:442-444 | an id in bounds swaps the task in its slot and returns the previous one; an id out of bounds fails and changes nothing |
| Manager.CurrentTaskState.FinishLocalTask | turbopack/crates/turbo-tasks/src/manager.rs:847-853 | a finished local task's slot becomes Done with its output, the done event is returned exactly when the slot was Scheduled, and every other slot is unchanged |
| Manager.CurrentTaskState.FindCellByType | turbopack/crates/turbo-tasks/src/manager.rs:1907-1920 | fails exactly when the counters are gone; otherwise the index is the type's counter before the call and the counters become the allocation's result |
| Manager.FindCells | turbopack/crates/turbo-tasks/src/manager.rs:1907-1920 | allocating cells for a run of types returns the indices and leaves the counters that the allocation specification gives |
| Manager.ShouldTrack | turbopack/crates/turbo-tasks/src/manager.rs:318-326 | whether a read is recorded as a dependency; ShouldTrackCases proves tracked reads always are, untracked never, and track-only-error exactly on failure |
| Manager.TrackingName | turbopack/crates/turbo-tasks/src/manager.rs:328-336 | the display text of a tracking mode; TrackingNameInjective proves the three modes display differently |
| Manager.Counter | turbopack/crates/turbo-tasks/src/manager.rs:1907-1920 | the number of cells of a value type allocated so far, 0 for an unused type; Allocate proves an allocation returns it and raises it by one |
| Manager.Allocations | turbopack/crates/turbo-tasks/src/manager.rs:1907-1920 | the indices a run of allocations returns; AllocationsNumberPerType proves each allocation gets its type's counter plus the earlier allocations of that type, and AllocationsLength that there is one per allocation |
| Manager.Occurrences | turbopack/crates/turbo-tasks/src/manager.rs:1907-1920 | how often a type is allocated in a run, which CountersAfterCount proves its counter grows by |
| Manager.CountersAfter | turbopack/crates/turbo-tasks/src/manager.rs:1907-1920 | the counters after a run of allocations; CountersAfterCount proves each grew by its number of allocations |
| RawVcs.KindsAgree | turbopack/crates/turbo-tasks/src/raw_vc.rs:107-132 | a reference is resolved exactly when it is a cell and local exactly when it is a local output, never both; outputs and cells are transient by their task id, local outputs by their recorded persistence |
| RawVcs.TryGetTaskId | turbopack/crates/turbo-tasks/src/raw_vc.rs:264-269 | a reference has a task id exactly when it is not local, and it is the task the reference names |
| RawVcs.TryGetTypeId | turbopack/crates/turbo-tasks/src/raw_vc.rs:271-276 | a reference has a type id exactly when it is resolved, and it is the cell's value type |
| RawVcs.ResolvedIsType | turbopack/crates/turbo-tasks/src/raw_vc.rs:291-296 | defined exactly on resolved references, where it holds exactly when the type id is the given type |
| RawVcs.ResolvedHasTrait | turbopack/crates/turbo-tasks/src/raw_vc.rs:280-287 | defined exactly on resolved references, where it is the registry's answer for the cell's type |
| RawVcs.Connect | turbopack/crates/turbo-tasks/src/raw_vc.rs:256-262 | succeeds exactly on a task output, giving its task; anything else is the misuse panic |
| RawVcs.ResolutionEndsAtCell | turbopack/crates/turbo-tasks/src/raw_vc.rs:220-239 | a successful resolution always ends at a resolved cell, and a cell resolves to itself without any read |
| RawVcs.DowngradedMeans | turbopack/crates/turbo-tasks/src/raw_vc.rs:224-230 | in a downgraded trace every read up to the first task-output read uses the caller's consistency and every read after a task-output read is eventual |
| RawVcs.ConsistencyDowngrade | turbopack/crates/turbo-tasks/src/raw_vc.rs:220-239 | the reads resolution issues follow the downgrade: strong consistency is used only until the first task output has been read |
| RawVcs.StrongLocalReadOnlyAtStart | turbopack/crates/turbo-tasks/src/raw_vc.rs:231-234 | the debug assertion on local outputs can fail at some read exactly when a local output is resolved strongly, that is, at the first read |
| RawVcs.ResolveInner | turbopack/crates/turbo-tasks/src/raw_vc.rs:220-239 | the loop returns the result and issues the reads of the resolution specification |
| RawVcs.NonLocalIsNotLocal | turbopack/crates/turbo-tasks/src/raw_vc.rs:243-254 | the result of to_non_local is never local, a non-local reference is returned unchanged, and resolving from it gives what resolving the original gives |
| RawVcs.FuelMonotone | turbopack/crates/turbo-tasks/src/raw_vc.rs:220-239 | a resolution that finished within a bound gives the same result and reads with one more step allowed |
| RawVcs.ToNonLocal | turbopack/crates/turbo-tasks/src/raw_vc.rs:243-254 | the loop follows local outputs exactly as the to_non_local specification does |
| RawVcs.TypeResolutionFollowsResolve | turbopack/crates/turbo-tasks/src/raw_vc.rs:166-200 | type resolution reaches the cell an eventual resolve reaches and returns it exactly when its content's type passes the condition, fails with a read error or no content otherwise, and an output read that fails in resolve fails here as a task error |
| RawVcs.FoundCellsMatch | turbopack/crates/turbo-tasks/src/raw_vc.rs:140-157 | a value found by resolve_value is a cell whose content has the wanted type; one found by resolve_trait is a cell whose content's type implements the trait |
| RawVcs.ResolveTypeInner | turbopack/crates/turbo-tasks/src/raw_vc.rs:166-200 | the loop follows outputs and local outputs to a cell and classifies its content as the type-resolution specification does |
| RawVcs.ReadOptionBuilders | turbopack/crates/turbo-tasks/src/raw_vc.rs:350-391 | the consistency and tracking setters are independent, the last tracking setter wins, untracked reads record only failures and untracked-including-errors reads record nothing |
| RawVcs.IsResolved | turbopack/crates/turbo-tasks/src/raw_vc.rs:106-112 | a reference is resolved exactly when it is a cell; KindsAgree proves it is never also local |
| RawVcs.IsLocal | turbopack/crates/turbo-tasks/src/raw_vc.rs:114-120 | a reference is local exactly when it is a local output; KindsAgree proves it is never also resolved |
| RawVcs.IsTransient | turbopack/crates/turbo-tasks/src/raw_vc.rs:127-132 | transience by the task id of an output or a cell and by the recorded persistence of a local output, as KindsAgree states |
| RawVcs.Resolution | turbopack/crates/turbo-tasks/src/raw_vc.rs:220-239 | the result and read trace of resolve_inner; ResolutionEndsAtCell, ConsistencyDowngrade, StrongLocalReadOnlyAtStart and FuelMonotone state its contract |
| RawVcs.Downgraded | turbopack/crates/turbo-tasks/src/raw_vc.rs:224-230 | the consistency of each read: the caller's up to the first task-output read and eventual after it, as DowngradedMeans proves and ConsistencyDowngrade establishes for every trace |
| RawVcs.StrongLocal | turbopack/crates/turbo-tasks/src/raw_vc.rs:231-234 | a strongly consistent read of a local output, which the debug assertion rejects; StrongLocalReadOnlyAtStart proves it can happen only at the first read |
| RawVcs.NonLocal | turbopack/crates/turbo-tasks/src/raw_vc.rs:243-254 | local outputs followed to a reference that is not local; NonLocalIsNotLocal proves the result is not local and resolution from it agrees |
| RawVcs.TypeResolutionOf | turbopack/crates/turbo-tasks/src/raw_vc.rs:166-200 | resolution with a type condition; TypeResolutionFollowsResolve proves it reaches the cell resolve reaches and tests its content's type |
| RawVcs.ResolveValue | turbopack/crates/turbo-tasks/src/raw_vc.rs:151-157 | the condition is equality with the wanted type; FoundCellsMatch proves a found cell holds content of that type |
| RawVcs.ResolveTrait | turbopack/crates/turbo-tasks/src/raw_vc.rs:140-149 | the condition is that the type implements the trait; FoundCellsMatch proves a found cell's type implements it |
| RawVcs.StronglyConsistent | turbopack/crates/turbo-tasks/src/raw_vc.rs:360-363 | sets the consistency to strong and nothing else; ReadOptionBuilders proves it commutes with the tracking setters |
| RawVcs.Untracked | turbopack/crates/turbo-tasks/src/raw_vc.rs:366-374 | tracks only errors for outputs and cells; ReadOptionBuilders proves a failed read is still recorded |
| RawVcs.UntrackedIncludingErrors | turbopack/crates/turbo-tasks/src/raw_vc.rs:381-385 | tracks nothing; ReadOptionBuilders proves no read is recorded and the later tracking setter wins |
| RawVcs.FinalReadHint | turbopack/crates/turbo-tasks/src/raw_vc.rs:387-390 | sets the final-read hint and nothing else |
| TaskIds.IsTransient | turbopack/crates/turbo-tasks/src/manager.rs:462-467 | a task id is transient exactly when it lies at or above the transient bit, the range transient ids are drawn from; RawVcs.KindsAgree states a reference to a task is transient exactly when that task is |
| ValueTypes.TraitMethod.constructor | turbopack/crates/turbo-tasks/src/value_type.rs:208-212 | a trait method carries its trait's name, its own name and the default implementation it was given |
| ValueTypes.ValueType.constructor | turbopack/crates/turbo-tasks/src/value_type.rs:107-120 | a new value type has its names, no traits, no trait methods, and is not serializable |
| ValueTypes.ValueType.WithAnySerialization | turbopack/crates/turbo-tasks/src/value_type.rs:122-137 | a type made with Any serialization has no traits or methods and is serializable; neither constructor sets magic serialization |
| ValueTypes.ValueType.RegisterTraitMethod | turbopack/crates/turbo-tasks/src/value_type.rs:173-179 | the implementation is recorded for the method, replacing an earlier one, lookups of it now find it, other registrations and the traits are unchanged |
| ValueTypes.ValueType.GetTraitMethod | turbopack/crates/turbo-tasks/src/value_type.rs:181-189 | the registered implementation when there is one, otherwise the trait method's default; nothing only when neither exists |
| ValueTypes.ValueType.RegisterTrait | turbopack/crates/turbo-tasks/src/value_type.rs:191-193 | after registering a trait the type has it, and no other trait changes |
| ValueTypes.NewValueTypesDiffer | turbopack/crates/turbo-tasks/src/value_type.rs:61-73 | two value types built from the same names with the same contents are still different: equality is identity |
| ValueTypes.LastDefaultOfUnique | turbopack/crates/turbo-tasks/src/value_type.rs:281-289 | when no method name is listed twice, each method keeps the default implementation it was listed with |
| ValueTypes.TraitType.constructor | turbopack/crates/turbo-tasks/src/value_type.rs:274-298 | the methods are keyed by exactly the listed names, each belongs to the trait under its own name with the last listed default, and different names get different method objects |
| ValueTypes.TraitType.Get | turbopack/crates/turbo-tasks/src/value_type.rs:300-302 | finds a method exactly when its name is known, and it is that name's method of this trait; an unknown name panics |
| ValueTypes.TraitType.Display | turbopack/crates/turbo-tasks/src/value_type.rs:259-263 | the display text is "trait " followed by the trait's name |
| ValueTypes.ValueType.IsSerializable | turbopack/crates/turbo-tasks/src/value_type.rs:162-164 | whether the type can be serialised; the constructor and WithAnySerialization state which types are |
| ValueTypes.ValueType.HasTrait | turbopack/crates/turbo-tasks/src/value_type.rs:196-198 | whether the type implements a trait; RegisterTrait proves it holds from then on and changes no other trait |
| ValueTypes.LastDefault | turbopack/crates/turbo-tasks/src/value_type.rs:281-289 | the default a method name's last entry carries; LastDefaultOfUnique proves that without duplicates each method keeps its listed default |
| ValueTypes.NoDuplicateNames | turbopack/crates/turbo-tasks/src/value_type.rs:289-292 | no method name is listed twice, what the debug assertion checks |
| ValueTypes.TraitType.Valid | turbopack/crates/turbo-tasks/src/value_type.rs:274-298 | each method is filed under its own name and belongs to the trait, which the constructor establishes and Get relies on |
| UpdateCell.FinalStep | turbopack/crates/turbo-tasks-backend/src/backend/operation/update_cell.rs:177-200 | the final change fails (the "Item already exists" panic) exactly when new content meets existing content; otherwise the cell holds the new content, the in-progress marker is gone and waiters are notified exactly when it was there |
| UpdateCell.Step | turbopack/crates/turbo-tasks-backend/src/backend/operation/update_cell.rs:126-211 | every pass of the loop brings the operation strictly closer to done |
| UpdateCell.Run | turbopack/crates/turbo-tasks-backend/src/backend/operation/update_cell.rs:126-211 | an operation that does not fail ends in the done state |
| UpdateCell.DirtyTasksExactly | turbopack/crates/turbo-tasks-backend/src/backend/operation/update_cell.rs:136-168 | a dependent is made dirty exactly when it is listed, is not a once task, has no outdated dependency on the cell and still depends on it |
| UpdateCell.RunFromInvalidation | turbopack/crates/turbo-tasks-backend/src/backend/operation/update_cell.rs:126-211 | from the invalidation state every dependent is popped from the back, the dirty ones produce one dirtying event each in that order and join the aggregation queue, then comes the final change, then the aggregation, then done |
| UpdateCell.RunFromFinal | turbopack/crates/turbo-tasks-backend/src/backend/operation/update_cell.rs:177-205 | from the final change the content is set and then the queue is processed |
| UpdateCell.SlowPathFinishes | turbopack/crates/turbo-tasks-backend/src/backend/operation/update_cell.rs:76-98 | the slow path never hits the "Item already exists" panic, because the old content was removed first |
| UpdateCell.SlowPathOrder | turbopack/crates/turbo-tasks-backend/src/backend/operation/update_cell.rs:62-98 | on the slow path the old content is removed first and no dependent is made dirty after the new content is set |
| UpdateCell.FastPath | turbopack/crates/turbo-tasks-backend/src/backend/operation/update_cell.rs:101-121 | the fast path stores the new content (or removes it when there is none) and removes the in-progress marker; nothing else changes; waiters are notified exactly when a marker was there |
| UpdateCell.SlowPathStoresAsFastPath | turbopack/crates/turbo-tasks-backend/src/backend/operation/update_cell.rs:43-121 | both paths leave the storage the same: removing the content before invalidating and adding it afterwards stores what replacing it at once would |
| UpdateCell.Backend.Execute | turbopack/crates/turbo-tasks-backend/src/backend/operation/update_cell.rs:126-211 | the loop ends with the storage and event log the step-by-step run produces, and fails exactly when that run does |
| UpdateCell.Backend.Update | turbopack/crates/turbo-tasks-backend/src/backend/operation/update_cell.rs:43-122 | the slow path is taken exactly when dependencies are tracked, the task is dirty or stateful and the cell has dependents; it then lists every dependent once, removes the content, logs that removal and runs the invalidation; otherwise the fast path's storage and events result |
| UpdateCell.StorageOf | turbopack/crates/turbo-tasks-backend/src/backend/operation/update_cell.rs:44 | a task's items, empty for a task with none |
| UpdateCell.Invalidates | turbopack/crates/turbo-tasks-backend/src/backend/operation/update_cell.rs:137-167 | a dependent is made dirty unless it is a once task, its dependency is outdated, or it no longer depends on the cell; DirtyTasksExactly states the iff |
| UpdateCell.DirtyTasks | turbopack/crates/turbo-tasks-backend/src/backend/operation/update_cell.rs:136-175 | the dependents made dirty, in pop order; DirtyTasksExactly states which they are |
| UpdateCell.DirtyEvents | turbopack/crates/turbo-tasks-backend/src/backend/operation/update_cell.rs:157-167 | one dirtying event per dirty dependent, in order |
| UpdateCell.AfterInvalidation | turbopack/crates/turbo-tasks-backend/src/backend/operation/update_cell.rs:130-205 | what the invalidation phase leads to: the dirtying events, the final change, then the aggregation of the extended queue; RunFromInvalidation states execute reaches it |
| UpdateCell.NoDependents | turbopack/crates/turbo-tasks-backend/src/backend/operation/update_cell.rs:169-176 | with no dependent left, only the final change and the aggregation remain |
| UpdateCell.Measure | turbopack/crates/turbo-tasks-backend/src/backend/operation/update_cell.rs:126-211 | how far an operation is from done, lowered by each step, so the loop ends |
| UpdateCell.RunUnfold | turbopack/crates/turbo-tasks-backend/src/backend/operation/update_cell.rs:126-211 | `execute` is one step followed by the rest, a failing step failing the whole |
| UpdateCell.ResumesAs | turbopack/crates/turbo-tasks-backend/src/backend/operation/update_cell.rs:126-211 | a run finishes like the rest of the steps after the events already done; Execute's loop keeps it |
| UpdateCell.ResumesAfterStep | turbopack/crates/turbo-tasks-backend/src/backend/operation/update_cell.rs:126-211 | one successful step moves its events from the rest to what is done |
| UpdateCell.ResumesFails | turbopack/crates/turbo-tasks-backend/src/backend/operation/update_cell.rs:126-211 | a failing step fails the whole run |
| UpdateCell.DirtyPop | turbopack/crates/turbo-tasks-backend/src/backend/operation/update_cell.rs:136-168 | popping a dependent that must be dirtied adds its event in front and puts it on the aggregation queue |
| UpdateCell.DependentsOf | turbopack/crates/turbo-tasks-backend/src/backend/operation/update_cell.rs:55-60 | the tasks listed as depending on this cell |
| UpdateCell.ShouldInvalidate | turbopack/crates/turbo-tasks-backend/src/backend/operation/update_cell.rs:49-52 | dependencies are tracked and the task is dirty or stateful; SlowPathOrder and FastPath state which path follows |
| UpdateCell.Backend.constructor | turbopack/crates/turbo-tasks-backend/src/backend/operation/update_cell.rs:43-49 | the execute context an update runs against: the dependency-tracking switch, the transient tasks and the tasks' items as given, and no events yet |
| UpdateCell.Prepend | turbopack/crates/turbo-tasks-backend/src/backend/operation/update_cell.rs:126-211 | one step's events put in front of the rest of the run's events, a failure of the rest being kept; RunUnfold states the run is the first step followed by the rest |
| Operations.AccessRule | turbopack/crates/turbo-tasks-backend/src/backend/operation/mod.rs:385-415 | data and meta items may only be touched through a guard of the same category or of `All`; `All` items need no particular guard |
| Operations.TaskGuard.Add | turbopack/crates/turbo-tasks-backend/src/backend/operation/mod.rs:437-447 | the item is stored exactly when its key was absent; a modification of the item's category is recorded only for a persisted item of a persistent task that was actually added |
| Operations.TaskGuard.AddNew | turbopack/crates/turbo-tasks-backend/src/backend/operation/mod.rs:449-453 | succeeds and stores the item exactly when its key was absent; otherwise it fails with "Item already exists" and changes nothing |
| Operations.TaskGuard.Insert | turbopack/crates/turbo-tasks-backend/src/backend/operation/mod.rs:455-462 | stores the item and returns the value it replaced (none when absent); persisted items of persistent tasks record a modification of their category |
| Operations.TaskGuard.Update | turbopack/crates/turbo-tasks-backend/src/backend/operation/mod.rs:464-475 | the item becomes what the update makes of the old value; a missing result removes it; modification recorded as for insert |
| Operations.TaskGuard.Remove | turbopack/crates/turbo-tasks-backend/src/backend/operation/mod.rs:477-484 | the item is removed and its old value returned; modification recorded as for insert |
| Operations.TaskGuard.InvalidateSerialization | turbopack/crates/turbo-tasks-backend/src/backend/operation/mod.rs:550-557 | a persistent task records both data and meta as modified, a transient task nothing; storage is unchanged |
| Operations.PrefetchMap | turbopack/crates/turbo-tasks-backend/src/backend/operation/mod.rs:559-571 | the prefetched map has one entry per output, cell or collectibles dependency target, true exactly when a cell or collectibles dependency names it |
| Operations.TaskGuard.Prefetch | turbopack/crates/turbo-tasks-backend/src/backend/operation/mod.rs:559-571 | marks the task prefetched; returns the dependency map exactly when this is the first prefetch and there are more than 16 targets |
| Operations.PrefetchTwice | turbopack/crates/turbo-tasks-backend/src/backend/operation/mod.rs:559-571 | a second prefetch of the same task never returns targets, and a returned map has more than 16 entries |
| Operations.IsOnceTask | turbopack/crates/turbo-tasks-backend/src/backend/operation/mod.rs:214-223 | only transient tasks registered as once tasks are once tasks; a persistent id never is |
| Operations.LeavesFlat | turbopack/crates/turbo-tasks-backend/src/backend/operation/mod.rs:601-626 | running any operation runs only concrete operations, never a nested one by itself |
| Operations.LeavesOfAppend | turbopack/crates/turbo-tasks-backend/src/backend/operation/mod.rs:619-623 | running a list of children in order is running the first part, then the rest |
| Operations.NestedSplices | turbopack/crates/turbo-tasks-backend/src/backend/operation/mod.rs:601-626 | a nested operation among the children runs exactly as if its children were spliced in |
| Operations.Execute | turbopack/crates/turbo-tasks-backend/src/backend/operation/mod.rs:612-626 | executing an operation appends exactly its concrete operations, in order, to what has run |
| Operations.AccessAllowed | turbopack/crates/turbo-tasks-backend/src/backend/operation/mod.rs:385-415 | which categories a guard may touch; AccessRule proves data and meta items need a guard of their own category or All, and All items are never checked |
| Operations.DependencyTargets | turbopack/crates/turbo-tasks-backend/src/backend/operation/mod.rs:559-571 | the tasks a task depends on through outputs, cells or collectibles, which PrefetchMap proves are exactly its keys |
| Operations.DependsOnCellOrCollectibles | turbopack/crates/turbo-tasks-backend/src/backend/operation/mod.rs:562-565 | a cell or collectibles dependency names the task, which PrefetchMap proves is exactly when its entry is true |
| Operations.TaskGuard.constructor | turbopack/crates/turbo-tasks-backend/src/backend/operation/mod.rs:182-210 | a guard over the task's storage with the category it was restored for and nothing modified yet |
| Operations.TaskGuard.Tracked | turbopack/crates/turbo-tasks-backend/src/backend/operation/mod.rs:437-484 | a change must be written back exactly when the task is persistent and the item persisted, as Add, Insert, Update and Remove state |
| Operations.TaskGuard.HasKey | turbopack/crates/turbo-tasks-backend/src/backend/operation/mod.rs:513-516 | whether the item's key is stored |
| Operations.TaskGuard.IsImmutable | turbopack/crates/turbo-tasks-backend/src/backend/operation/mod.rs:573-575 | whether the immutable marker is stored |
| Operations.Leaves | turbopack/crates/turbo-tasks-backend/src/backend/operation/mod.rs:612-626 | the concrete operations an operation runs in order; LeavesFlat proves none is nested, NestedSplices that a nested child runs as its children spliced in, and Execute runs exactly these |
| Operations.LeavesOf | turbopack/crates/turbo-tasks-backend/src/backend/operation/mod.rs:619-623 | the concrete operations of a list of children in order; LeavesOfAppend proves it splits over concatenation |
| Operations.LeavesOfFlat | turbopack/crates/turbo-tasks-backend/src/backend/operation/mod.rs:619-623 | the children of a nested operation run no nested operation themselves |
| Operations.ExecutionLog.constructor | turbopack/crates/turbo-tasks-backend/src/backend/operation/mod.rs:612-626 | the log of operations run starts empty |
| Watcher.StopBelow | turbopack/crates/turbo-tasks-fs/src/watcher.rs:284-306 | the walk over the proper ancestors of a directory stops at the longest one that is the root or already watched, and passes none of those before it; it finds none only when no ancestor qualifies |
| Watcher.WalkStopsBelowRoot | turbopack/crates/turbo-tasks-fs/src/watcher.rs:284-313 | while the watched set keeps its invariant, the walk finds its stop exactly for directories strictly below the root, so it fails exactly for the others |
| Watcher.PlanPrefixKeepsInvariant | turbopack/crates/turbo-tasks-fs/src/watcher.rs:120-129 | watching the walk's directories from the root side downwards keeps the watched-set invariant after any prefix, so even a watch that fails part-way leaves every entry's parents recorded; only the directory and its ancestors are added |
| Watcher.DiskWatcher.WalkAncestors | turbopack/crates/turbo-tasks-fs/src/watcher.rs:289-306 | the loop over the ancestors finds the walk's stop |
| Watcher.DiskWatcher.WatchInOrder | turbopack/crates/turbo-tasks-fs/src/watcher.rs:314-322 | each directory is watched and then recorded, in order, up to the first failing watch, which fails the whole walk |
| Watcher.DiskWatcher.StartWatchingDirAndParents | turbopack/crates/turbo-tasks-fs/src/watcher.rs:284-325 | the walk fails, changing nothing, when it finds neither the root nor a watched ancestor; otherwise the directories between the stop and the directory are watched and recorded from the root side down |
| Watcher.DiskWatcher.StartWatchingDir | turbopack/crates/turbo-tasks-fs/src/watcher.rs:256-275 | the notify watcher is asked to watch the directory; only an error other than "path not found" fails |
| Watcher.DiskWatcher.EnsureWatched | turbopack/crates/turbo-tasks-fs/src/watcher.rs:216-248 | the root, a stopped watcher and a watched directory need nothing; otherwise the directory and every directory between it and the root end up watched, a directory outside the root fails, and the watched-set invariant holds whether or not a watch fails |
| Watcher.DiskWatcher.EnsureWatchedAsWritten | turbopack/crates/turbo-tasks-fs/src/watcher.rs:216-248 | a directory not yet watched is recorded before the walk, whatever the walk's outcome |
| Watcher.FailedWatchBreaksInvariant | turbopack/crates/turbo-tasks-fs/src/watcher.rs:241-247 | with the parent's watch failing, the directory stays recorded while its parent is not, breaking the invariant, and a second call returns at once |
| Watcher.DiskWatcher.RestoreIfWatched | turbopack/crates/turbo-tasks-fs/src/watcher.rs:171-210 | the root, a stopped watcher and an unwatched directory need nothing; a watched one is watched again with every watched directory below it; nothing else is watched and the watched set is unchanged |
| Watcher.DiskWatcher.RestoreAllWatched | turbopack/crates/turbo-tasks-fs/src/watcher.rs:153-166 | after a rescan exactly the watched directories are watched again, errors ignored; the watched set is unchanged |
| Watcher.DiskWatcher.StartWatching | turbopack/crates/turbo-tasks-fs/src/watcher.rs:350-451 | starting an already watching watcher does nothing; otherwise the root is watched first, and only if that succeeds does watching start with an empty watched set |
| Watcher.DiskWatcher.EnsureWatchedFile | turbopack/crates/turbo-tasks-fs/src/watcher.rs:719-729 | only in non-recursive mode, only the file's parent directory is watched (with its parents), never the file itself |
| Watcher.DiskWatcher.EnsureWatchedDir | turbopack/crates/turbo-tasks-fs/src/watcher.rs:731-736 | only in non-recursive mode the directory itself ends up watched |
| Watcher.Classify | turbopack/crates/turbo-tasks-fs/src/watcher.rs:545-631 | a rename with both paths but fewer than two fails; ignored kinds add nothing; every other kind invalidates each path, alone or with its children; creations, removals and renames also invalidate the parent directories; only creations and complete renames report new paths; nothing outside the event's paths is invalidated as a file |
| Watcher.CreateAndRemoveInvalidateAlike | turbopack/crates/turbo-tasks-fs/src/watcher.rs:564-586 | a creation and a removal of the same paths invalidate the same things; only the creation reports the paths as new |
| Watcher.Batches.AddEvent | turbopack/crates/turbo-tasks-fs/src/watcher.rs:536-631 | an event without paths changes nothing; otherwise each batch grows by the event's classification, and new paths are kept only in non-recursive mode |
| Watcher.Batches.AddWatchError | turbopack/crates/turbo-tasks-fs/src/watcher.rs:634-645 | a watcher error invalidates its paths with their children, or the whole root when it names none |
| Watcher.Batches.Flush | turbopack/crates/turbo-tasks-fs/src/watcher.rs:672-716 | at the end of a batch the collected paths are handed over for invalidation and every batch is emptied; the watched set is unchanged |
| Watcher.Rescan | turbopack/crates/turbo-tasks-fs/src/watcher.rs:498-533 | a rescan drops every pending batch and new path, and in non-recursive mode every watched directory is watched again |
| Watcher.DiskWatcher.constructor | turbopack/crates/turbo-tasks-fs/src/watcher.rs:329-333 | a new watcher is stopped and watches nothing, which keeps the watched-parents invariant |
| Watcher.DiskWatcher.StopWatching | turbopack/crates/turbo-tasks-fs/src/watcher.rs:453-459 | stopping leaves the watcher stopped and the record of watched directories as it was |
| Watcher.Batches.constructor | turbopack/crates/turbo-tasks-fs/src/watcher.rs:472-481 | every batch starts empty; new paths are collected only for a non-recursive watcher |
| Watcher.Parent | turbopack/crates/turbo-tasks-fs/src/watcher.rs:616-624 | a path has a parent exactly when it is not empty, and the parent is the path without its last segment |
| Watcher.StrictlyUnder | turbopack/crates/turbo-tasks-fs/src/watcher.rs:125-129 | a path lies strictly below a directory, the relation the watched-set invariant is stated in |
| Watcher.WatchedInvariant | turbopack/crates/turbo-tasks-fs/src/watcher.rs:125-129 | the watched set never holds the root and holds every directory between the root and each entry; PlanPrefixKeepsInvariant and the watcher's methods preserve it, FailedWatchBreaksInvariant shows the code as written does not |
| Watcher.Plan | turbopack/crates/turbo-tasks-fs/src/watcher.rs:284-322 | the directories the walk watches, closest to the root first and the requested directory last |
| Watcher.PlanEntryParents | turbopack/crates/turbo-tasks-fs/src/watcher.rs:284-322 | a planned directory lies below the root and its ancestors down to where the walk stopped are already watched |
| Watcher.FirstFailure | turbopack/crates/turbo-tasks-fs/src/watcher.rs:314-322 | the first planned directory whose watch fails, every one before it succeeding, or the plan's length when none fails |
| Watcher.DiskWatcher.Valid | turbopack/crates/turbo-tasks-fs/src/watcher.rs:125-129 | the watcher's watched set keeps WatchedInvariant, which every method that can change it preserves |
| Watcher.DiskWatcher.BelowRoot | turbopack/crates/turbo-tasks-fs/src/watcher.rs:125-129 | every watched directory lies below the root, the part of the invariant EnsureWatchedAsWritten needs of its caller |
| Watcher.Ignored | turbopack/crates/turbo-tasks-fs/src/watcher.rs:625-630 | access events, other events and metadata-other or other modifications invalidate nothing; Classify gives them no delta |
| Watcher.Parents | turbopack/crates/turbo-tasks-fs/src/watcher.rs:616-624 | the parents of the paths that have one, each such parent and nothing else |
| Watcher.Batches.Empty | turbopack/crates/turbo-tasks-fs/src/watcher.rs:472-481 | no batch holds a path, the state the constructor starts in and Flush returns to |
| Chunking.ReferencesSourceMaps | turbopack/crates/turbopack-browser/src/chunking_context.rs:564-578 | chunks and modules reference their source maps exactly when the source-map type is `Full` |
| Chunking.NormalizeSegments | turbopack/crates/turbo-tasks-fs/src/lib.rs:1345-1363 | the segment walk behind a normalised path: from plain segments it yields only plain segments (no "", ".", ".." or "/") |
| Chunking.NormalizePath | turbopack/crates/turbo-tasks-fs/src/lib.rs:1345-1363 | a path that normalises gives the normalised form `new_normalized` expects: the root "" or plain segments joined by "/" |
| Chunking.JoinFsPath | turbopack/crates/turbo-tasks-fs/src/lib.rs:1368-1378 | `join` succeeds exactly when the joined path stays inside the root; the result is normalised and on the same file system; otherwise the error names both paths and says the join leaves the filesystem root |
| Chunking.NormalizePlain | turbopack/crates/turbo-tasks-fs/src/lib.rs:1345-1363 | plain segments pass through normalisation unchanged |
| Chunking.JoinPlain | turbopack/crates/turbo-tasks-fs/src/lib.rs:1368-1378 | joining a plain name onto a normalised path appends "/" and the name, or gives the name alone below the root |
| Chunking.NormalizedNoLeadingSlash | turbopack/crates/turbo-tasks-fs/src/lib.rs:1345-1363 | a normalised path never starts with "/" |
| Chunking.AssetUrlFrom | turbopack/crates/turbopack-browser/src/chunking_context.rs:537-562 | `asset_url` succeeds exactly when the asset path starts with "<client root>/"; the URL starts with the base path ("/" without one), and the base followed by the rest gives back the asset path; otherwise the context's error |
| Chunking.AssetUrlOfJoined | turbopack/crates/turbopack-browser/src/chunking_context.rs:550-561 | the URL of any asset below the client root is the base followed by its path below that root |
| Chunking.AssetUrlAtFileSystemRoot | turbopack/crates/turbopack-browser/src/chunking_context.rs:550-553 | with the client root at the file-system root "" no normalised asset path carries the prefix "/", so every URL fails |
| Chunking.FileNameEndsWithExtension | turbopack/crates/turbopack-browser/src/chunking_context.rs:589-594 | a file name with an extension ends with "." and that extension, so the slice before it is in range |
| Chunking.NameBeforeExtension | turbopack/crates/turbopack-browser/src/chunking_context.rs:589-594 | the file name is this stem followed by ".<extension>" (or the whole name without an extension) |
| Chunking.AssetFileName | turbopack/crates/turbopack-browser/src/chunking_context.rs:587-599 | the static asset's name succeeds exactly when the content hash has at least 8 characters; it is the stem, ".", the first 8 hash characters and the source's extension |
| Chunking.AssetFileNameShape | turbopack/crates/turbopack-browser/src/chunking_context.rs:587-599 | a hexadecimal content hash keeps the asset's name one plain path segment, and the source's extension stays the name's extension |
| Chunking.AssetPathIn | turbopack/crates/turbopack-browser/src/chunking_context.rs:581-607 | `asset_path` fails for a content hash shorter than 8 characters; a placed asset is on the asset root's file system with a normalised path |
| Chunking.AssetPathInRoot | turbopack/crates/turbopack-browser/src/chunking_context.rs:600-606 | under a normalised asset root a hexadecimal hash places the asset directly in that root, under its hashed name |
| Chunking.UrlBelowClientRoot | turbopack/crates/turbopack-browser/src/chunking_context.rs:537-562 | a name placed in a directory below the client root is served at the base, the directory and the name |
| Chunking.AssetUrlOfAssetPath | turbopack/crates/turbopack-browser/src/chunking_context.rs:537-607 | an asset placed by `asset_path` in an asset root below the client root is served by `asset_url` at the base followed by its path below the client root |
| Chunking.HashDigits | turbopack/crates/turbopack-browser/src/chunking_context.rs:519-523 | `{hash:0length$x}` has at least `length` digits and never fewer than the hash itself needs |
| Chunking.HashDigitsRoundTrip | turbopack/crates/turbopack-browser/src/chunking_context.rs:519-523 | the zero-padded lower-case hexadecimal digits read back as the hash, whatever the width |
| Chunking.HashDigitsWidth | turbopack/crates/turbopack-browser/src/chunking_context.rs:519-523 | a 64-bit hash written with a width of 16 or more takes exactly that many digits |
| Chunking.ContentHashedName | turbopack/crates/turbopack-browser/src/chunking_context.rs:519-524 | the content-hashed chunk name ends with the extension, starts with "<prefix>-" when there is a prefix, and has the length of prefix, digits and extension |
| Chunking.ContentHashedNameDigits | turbopack/crates/turbopack-browser/src/chunking_context.rs:519-524 | the digits between the prefix and the extension read back as the hash |
| Chunking.ContentHashedNamePlain | turbopack/crates/turbopack-browser/src/chunking_context.rs:519-524 | without "/" in the prefix and the extension the chunk name is one path segment |
| Chunking.PlainSegment | turbopack/crates/turbo-tasks-fs/src/lib.rs:1345-1363 | a segment normalisation keeps: not empty, not `.` or `..`, no `/` |
| Chunking.NormalizedPath | turbopack/crates/turbo-tasks-fs/src/lib.rs:1358-1361 | what `new_normalized` asserts: the root or plain segments joined by `/`; NormalizePath states every normalised path is one |
| Chunking.JoinPath | turbopack/crates/turbo-tasks-fs/src/lib.rs:1368-1378 | `join_path`: the base and the path normalised together; JoinFsPath states `join` succeeds exactly when it does, and JoinPlain what a plain name gives |
| Chunking.JoinSnoc | turbopack/crates/turbo-tasks-fs/src/lib.rs:1368-1378 | joining one more segment puts the separator before it |
| Chunking.BaseOrSlash | turbopack/crates/turbopack-browser/src/chunking_context.rs:555-559 | the asset base path, `/` when there is none; AssetUrlFrom states the URL starts with it |
| Chunking.SegmentEndsWithExtension | turbopack/crates/turbopack-browser/src/chunking_context.rs:589-594 | a last segment of a path ending in `.` and a slash-free extension ends in them too |
| Chunking.WholeEndsWithExtension | turbopack/crates/turbopack-browser/src/chunking_context.rs:589-594 | a name that is `before.ext` splits back into `before` and `.ext` |
| Chunking.DotExtension | turbopack/crates/turbopack-browser/src/chunking_context.rs:589-598 | `.` and the extension, or nothing; NameBeforeExtension states the file name is the stem followed by it |
| Chunking.LowerHex | turbopack/crates/turbopack-browser/src/chunking_context.rs:519-523 | lower-case hexadecimal digits, what `{hash:x}` writes; HashDigitsRoundTrip states the digits are of that kind |
| Chunking.LowerHexHasNoSeparator | turbopack/crates/turbopack-browser/src/chunking_context.rs:519-524 | hexadecimal digits contain neither `/` nor `.`, so a hashed name stays one segment |
| Chunking.HashedStemPlain | turbopack/crates/turbopack-browser/src/chunking_context.rs:519-524 | a stem, a dot and hexadecimal digits make a plain segment that does not end in `/` |
| Chunking.HexValueLeadingZero | turbopack/crates/turbopack-browser/src/chunking_context.rs:519-523 | a leading zero digit does not change the value read |
| Chunking.PadZerosValue | turbopack/crates/turbopack-browser/src/chunking_context.rs:519-523 | zero padding to the width keeps the value and keeps the digits hexadecimal |
| Chunking.HexLength | turbopack/crates/turbopack-browser/src/chunking_context.rs:519-523 | a number below 16^k takes at most k hexadecimal digits |
| Chunking.PowMonotone | turbopack/crates/turbopack-browser/src/chunking_context.rs:519-523 | 16^j is at most 16^k when j is at most k |
| Chunking.HashedNameStart | turbopack/crates/turbopack-browser/src/chunking_context.rs:519-524 | where the digits start: after the prefix and `-`, or at 0; ContentHashedNameDigits states they read back there |
| BrowserChunking.BrowserChunkingContextBuilder.constructor | turbopack/crates/turbopack-browser/src/chunking_context.rs:295-340 | `builder`: the given paths, environment and runtime type; no name, no overrides or base paths, every feature off, no minification, full source maps, no content hashing, the string-literal chunk method and the development module-id strategy |
| BrowserChunking.BrowserChunkingContextBuilder.Name | turbopack/crates/turbopack-browser/src/chunking_context.rs:84-87 | sets the name and nothing else; the context's `name` is then that name |
| BrowserChunking.BrowserChunkingContextBuilder.HotModuleReplacement | turbopack/crates/turbopack-browser/src/chunking_context.rs:89-92 | turns hot module replacement on and changes nothing else |
| BrowserChunking.BrowserChunkingContextBuilder.UseFileSourceMapUris | turbopack/crates/turbopack-browser/src/chunking_context.rs:94-97 | turns file source-map URIs on and changes nothing else |
| BrowserChunking.BrowserChunkingContextBuilder.Tracing | turbopack/crates/turbopack-browser/src/chunking_context.rs:99-102 | sets tracing and nothing else |
| BrowserChunking.BrowserChunkingContextBuilder.ModuleMerging | turbopack/crates/turbopack-browser/src/chunking_context.rs:104-107 | sets module merging and nothing else |
| BrowserChunking.BrowserChunkingContextBuilder.DynamicChunkContentLoading | turbopack/crates/turbopack-browser/src/chunking_context.rs:109-116 | sets dynamic chunk content loading and nothing else |
| BrowserChunking.BrowserChunkingContextBuilder.AssetBasePath | turbopack/crates/turbopack-browser/src/chunking_context.rs:118-121 | sets the default asset base path and nothing else |
| BrowserChunking.BrowserChunkingContextBuilder.ChunkBasePath | turbopack/crates/turbopack-browser/src/chunking_context.rs:123-126 | sets the chunk base path and nothing else |
| BrowserChunking.BrowserChunkingContextBuilder.ChunkSuffixPath | turbopack/crates/turbopack-browser/src/chunking_context.rs:128-131 | sets the chunk suffix path and nothing else |
| BrowserChunking.BrowserChunkingContextBuilder.RuntimeType | turbopack/crates/turbopack-browser/src/chunking_context.rs:133-136 | sets the runtime type and nothing else |
| BrowserChunking.BrowserChunkingContextBuilder.ManifestChunks | turbopack/crates/turbopack-browser/src/chunking_context.rs:138-141 | sets manifest chunks and nothing else |
| BrowserChunking.BrowserChunkingContextBuilder.SetMinifyType | turbopack/crates/turbopack-browser/src/chunking_context.rs:143-146 | sets the minify type and nothing else |
| BrowserChunking.BrowserChunkingContextBuilder.SourceMaps | turbopack/crates/turbopack-browser/src/chunking_context.rs:148-151 | sets the source-map type; chunks reference their source maps from then on exactly when it is `Full` |
| BrowserChunking.BrowserChunkingContextBuilder.SetCurrentChunkMethod | turbopack/crates/turbopack-browser/src/chunking_context.rs:153-156 | sets the current chunk method and nothing else |
| BrowserChunking.BrowserChunkingContextBuilder.SetModuleIdStrategy | turbopack/crates/turbopack-browser/src/chunking_context.rs:158-164 | sets the module-id strategy and nothing else |
| BrowserChunking.BrowserChunkingContextBuilder.ExportUsage | turbopack/crates/turbopack-browser/src/chunking_context.rs:166-169 | sets the export-usage information and nothing else |
| BrowserChunking.BrowserChunkingContextBuilder.DebugIds | turbopack/crates/turbopack-browser/src/chunking_context.rs:171-174 | sets debug ids and nothing else |
| BrowserChunking.BrowserChunkingContextBuilder.ShouldUseAbsoluteUrlReferences | turbopack/crates/turbopack-browser/src/chunking_context.rs:176-183 | sets absolute URL references and nothing else |
| BrowserChunking.BrowserChunkingContextBuilder.AssetRootPathOverride | turbopack/crates/turbopack-browser/src/chunking_context.rs:185-188 | assets with the tag go to the given root; the root of every other tag is unchanged |
| BrowserChunking.BrowserChunkingContextBuilder.ClientRootsOverride | turbopack/crates/turbopack-browser/src/chunking_context.rs:190-193 | URLs of assets with the tag are taken relative to the given root; every other tag's client root is unchanged |
| BrowserChunking.BrowserChunkingContextBuilder.AssetBasePathOverride | turbopack/crates/turbopack-browser/src/chunking_context.rs:195-198 | URLs of assets with the tag start with the given base; every other tag's base is unchanged |
| BrowserChunking.BrowserChunkingContextBuilder.ChunkingConfig | turbopack/crates/turbopack-browser/src/chunking_context.rs:200-208 | appends the chunk type's configuration after the existing ones |
| BrowserChunking.BrowserChunkingContextBuilder.UseContentHashing | turbopack/crates/turbopack-browser/src/chunking_context.rs:210-213 | turns content hashing on with the given setting and changes nothing else |
| BrowserChunking.BrowserChunkingContextBuilder.Build | turbopack/crates/turbopack-browser/src/chunking_context.rs:215-217 | the built context is exactly the one configured |
| BrowserChunking.ContextName | turbopack/crates/turbopack-browser/src/chunking_context.rs:455-461 | the configured name, "unknown" without one |
| BrowserChunking.ClientRootFor | turbopack/crates/turbopack-browser/src/chunking_context.rs:540-543 | the tag's client-root override when there is one, the default client root otherwise |
| BrowserChunking.AssetBaseFor | turbopack/crates/turbopack-browser/src/chunking_context.rs:545-548 | the tag's base-path override when there is one, the default (possibly missing) base otherwise |
| BrowserChunking.AssetRootFor | turbopack/crates/turbopack-browser/src/chunking_context.rs:601-604 | the tag's asset-root override when there is one, the default asset root otherwise |
| BrowserChunking.AssetUrl | turbopack/crates/turbopack-browser/src/chunking_context.rs:537-562 | succeeds exactly when the asset path starts with "<tag's client root>/"; the URL starts with the tag's base ("/" without one) and the base followed by the rest gives back the path; otherwise the error "expected asset_path to contain client_root" |
| BrowserChunking.AssetUrlBelowClientRoot | turbopack/crates/turbopack-browser/src/chunking_context.rs:537-562 | every path below the tag's client root has the URL made of the tag's base and the rest of the path |
| BrowserChunking.AssetPath | turbopack/crates/turbopack-browser/src/chunking_context.rs:581-607 | fails for a content hash shorter than 8 characters; a placed asset lies on the tag's asset root's file system with a normalised path |
| BrowserChunking.AssetUrlOfAssetPath | turbopack/crates/turbopack-browser/src/chunking_context.rs:537-607 | a static asset whose tag's asset root lies below its client root is placed there under its hashed name and served at the base followed by its path below the client root |
| BrowserChunking.ChunkPath | turbopack/crates/turbopack-browser/src/chunking_context.rs:489-534 | without content hashing the output name under the chunk root; with it, an error without an asset or without file content, and otherwise a normalised path on the chunk root's file system |
| BrowserChunking.ContentHashedChunkPath | turbopack/crates/turbopack-browser/src/chunking_context.rs:513-533 | with content hashing the chunk lies directly in the chunk root, named by the prefix, the hash digits and the extension, and the digits read back as the file's hash |
| BrowserChunking.ReferenceChunkSourceMaps | turbopack/crates/turbopack-browser/src/chunking_context.rs:564-570 | true exactly when the source-map type is `Full` |
| BrowserChunking.ReferenceModuleSourceMaps | turbopack/crates/turbopack-browser/src/chunking_context.rs:572-578 | true exactly when the source-map type is `Full` |
| BrowserChunking.EntryChunkGroup | turbopack/crates/turbopack-browser/src/chunking_context.rs:803-814 | always the error "Browser chunking context does not support entry chunk groups" |
| BrowserChunking.ModuleExportUsageOf | turbopack/crates/turbopack-browser/src/chunking_context.rs:854-867 | what the export-usage information reports for the module, and every export without it |
| NodeJsChunking.NodeJsChunkingContextBuilder.constructor | turbopack/crates/turbopack-nodejs/src/chunking_context.rs:195-233 | `builder`: the given paths, environment and runtime type; no overrides, no asset prefix, every feature off, no minification, full source maps, the development module-id strategy and no export-usage information |
| NodeJsChunking.NodeJsChunkingContextBuilder.AssetPrefix | turbopack/crates/turbopack-nodejs/src/chunking_context.rs:43-46 | sets the default asset prefix and nothing else |
| NodeJsChunking.NodeJsChunkingContextBuilder.AssetPrefixOverride | turbopack/crates/turbopack-nodejs/src/chunking_context.rs:48-51 | URLs of assets with the tag start with the given prefix; every other tag's prefix is unchanged |
| NodeJsChunking.NodeJsChunkingContextBuilder.AssetRootPathOverride | turbopack/crates/turbopack-nodejs/src/chunking_context.rs:53-56 | assets with the tag go to the given root; every other tag's root is unchanged |
| NodeJsChunking.NodeJsChunkingContextBuilder.ClientRootsOverride | turbopack/crates/turbopack-nodejs/src/chunking_context.rs:58-61 | URLs of assets with the tag are taken relative to the given root; every other tag's client root is unchanged |
| NodeJsChunking.NodeJsChunkingContextBuilder.SetMinifyType | turbopack/crates/turbopack-nodejs/src/chunking_context.rs:63-66 | sets the minify type and nothing else |
| NodeJsChunking.NodeJsChunkingContextBuilder.SourceMaps | turbopack/crates/turbopack-nodejs/src/chunking_context.rs:68-71 | sets the source-map type; chunks reference their source maps from then on exactly when it is `Full` |
| NodeJsChunking.NodeJsChunkingContextBuilder.FileTracing | turbopack/crates/turbopack-nodejs/src/chunking_context.rs:73-76 | sets file tracing and nothing else |
| NodeJsChunking.NodeJsChunkingContextBuilder.ModuleMerging | turbopack/crates/turbopack-nodejs/src/chunking_context.rs:78-81 | sets module merging and nothing else |
| NodeJsChunking.NodeJsChunkingContextBuilder.DynamicChunkContentLoading | turbopack/crates/turbopack-nodejs/src/chunking_context.rs:83-90 | sets dynamic chunk content loading and nothing else |
| NodeJsChunking.NodeJsChunkingContextBuilder.RuntimeType | turbopack/crates/turbopack-nodejs/src/chunking_context.rs:92-95 | sets the runtime type and nothing else |
| NodeJsChunking.NodeJsChunkingContextBuilder.ManifestChunks | turbopack/crates/turbopack-nodejs/src/chunking_context.rs:97-100 | sets manifest chunks and nothing else |
| NodeJsChunking.NodeJsChunkingContextBuilder.UseFileSourceMapUris | turbopack/crates/turbopack-nodejs/src/chunking_context.rs:102-105 | turns file source-map URIs on and changes nothing else |
| NodeJsChunking.NodeJsChunkingContextBuilder.SetModuleIdStrategy | turbopack/crates/turbopack-nodejs/src/chunking_context.rs:107-113 | sets the module-id strategy and nothing else |
| NodeJsChunking.NodeJsChunkingContextBuilder.ExportUsage | turbopack/crates/turbopack-nodejs/src/chunking_context.rs:115-118 | sets the export-usage information and nothing else |
| NodeJsChunking.NodeJsChunkingContextBuilder.ChunkingConfig | turbopack/crates/turbopack-nodejs/src/chunking_context.rs:120-128 | appends the chunk type's configuration after the existing ones |
| NodeJsChunking.NodeJsChunkingContextBuilder.DebugIds | turbopack/crates/turbopack-nodejs/src/chunking_context.rs:130-133 | sets debug ids and nothing else |
| NodeJsChunking.NodeJsChunkingContextBuilder.Build | turbopack/crates/turbopack-nodejs/src/chunking_context.rs:135-138 | the built context is exactly the one configured |
| NodeJsChunking.ContextName | turbopack/crates/turbopack-nodejs/src/chunking_context.rs:279-282 | always "unknown": the Node.js context has no name option |
| NodeJsChunking.ClientRootFor | turbopack/crates/turbopack-nodejs/src/chunking_context.rs:328-331 | the tag's client-root override when there is one, the default client root otherwise |
| NodeJsChunking.AssetPrefixFor | turbopack/crates/turbopack-nodejs/src/chunking_context.rs:333-336 | the tag's prefix override when there is one, the default (possibly missing) prefix otherwise |
| NodeJsChunking.AssetRootFor | turbopack/crates/turbopack-nodejs/src/chunking_context.rs:420-423 | the tag's asset-root override when there is one, the default asset root otherwise |
| NodeJsChunking.AssetUrl | turbopack/crates/turbopack-nodejs/src/chunking_context.rs:325-350 | succeeds exactly when the asset path starts with "<tag's client root>/"; the URL starts with the tag's prefix ("/" without one) and the prefix followed by the rest gives back the path; otherwise the error "expected client root to contain asset path" |
| NodeJsChunking.AssetUrlBelowClientRoot | turbopack/crates/turbopack-nodejs/src/chunking_context.rs:325-350 | every path below the tag's client root has the URL made of the tag's prefix and the rest of the path |
| NodeJsChunking.ChunkPath | turbopack/crates/turbopack-nodejs/src/chunking_context.rs:358-371 | the output name joined onto the chunk root, whatever the asset: it succeeds exactly when the join stays inside the root, and the result is normalised on the chunk root's file system |
| NodeJsChunking.ChunkPathOfName | turbopack/crates/turbopack-nodejs/src/chunking_context.rs:358-371 | an output name that is one path segment lands directly in the chunk root |
| NodeJsChunking.AssetPath | turbopack/crates/turbopack-nodejs/src/chunking_context.rs:400-426 | fails for a content hash shorter than 8 characters; a placed asset lies on the tag's asset root's file system with a normalised path |
| NodeJsChunking.AssetUrlOfAssetPath | turbopack/crates/turbopack-nodejs/src/chunking_context.rs:325-426 | a static asset whose tag's asset root lies below its client root is placed there under its hashed name and served at the prefix followed by its path below the client root |
| NodeJsChunking.ReferenceChunkSourceMaps | turbopack/crates/turbopack-nodejs/src/chunking_context.rs:374-379 | true exactly when the source-map type is `Full` |
| NodeJsChunking.ReferenceModuleSourceMaps | turbopack/crates/turbopack-nodejs/src/chunking_context.rs:382-387 | true exactly when the source-map type is `Full` |
| NodeJsChunking.EvaluatedChunkGroup | turbopack/crates/turbopack-nodejs/src/chunking_context.rs:541-549 | always the error "the Node.js chunking context does not support evaluated chunk groups" |
| NodeJsChunking.ModuleExportUsageOf | turbopack/crates/turbopack-nodejs/src/chunking_context.rs:590-602 | what the export-usage information reports for the module, and every export without it |
| ChainTransforms.DefaultBoolOr | crates/next-custom-transforms/src/chain_transforms.rs:396-400 | the default setting is `Bool(false)`, switched off |
| ChainTransforms.ToOption | crates/next-custom-transforms/src/chain_transforms.rs:402-413 | no configuration exactly when switched off; the default configuration when switched on; the given configuration for `Data` |
| ChainTransforms.DefaultIsOff | crates/next-custom-transforms/src/chain_transforms.rs:388-413 | the default setting leaves the transform out |
| ChainTransforms.DeserializeBoolOr | crates/next-custom-transforms/src/chain_transforms.rs:415-443 | a boolean reads as itself, an empty object as "on", anything else as `T` when `T` takes it, and otherwise fails with serde's no-variant error |
| ChainTransforms.DeserializedEnabled | crates/next-custom-transforms/src/chain_transforms.rs:402-443 | after reading, the transform is enabled exactly when the value was not `false` |
| ChainTransforms.EmptyObjectIsOn | crates/next-custom-transforms/src/chain_transforms.rs:429-441 | an empty object is "on" even where `T` could be built from it |
| ChainTransforms.SerializeBoolOr | crates/next-custom-transforms/src/chain_transforms.rs:390-394 | the JSON of a setting: the boolean, or `T`'s own JSON (the partner of reading) |
| ChainTransforms.DeserializeRoundTrip | crates/next-custom-transforms/src/chain_transforms.rs:415-443 | reading back a written setting gives it again whenever `T`'s JSON is neither a boolean nor an empty object and `T`'s reader inverts its writer |
| ChainTransforms.DecodeUsize | crates/next-custom-transforms/src/chain_transforms.rs:452-469 | a `usize` is read from a number in the 64-bit range and from nothing else |
| ChainTransforms.BoolOrUsizeExamples | crates/next-custom-transforms/src/chain_transforms.rs:452-469 | `BoolOr<usize>` reads `false`, `true`, `{}` and `1` as the test expects and rejects `{"a": 1}` |
| ChainTransforms.DecodeSomeStruct | crates/next-custom-transforms/src/chain_transforms.rs:471-475 | the test's struct read as serde's derive does: the empty object, an object without `field` and a `null` field give no field, a repeated `field` fails, and only an object or a one-element array is read |
| ChainTransforms.SomeStructLenient | crates/next-custom-transforms/src/chain_transforms.rs:471-475 | a `null` field, an unknown key and the one-element array form are accepted, a repeated field is rejected |
| ChainTransforms.BoolOrSomeStructExamples | crates/next-custom-transforms/src/chain_transforms.rs:471-481 | `{}` is "on" although it is a valid struct, and `{"field": 32}` is that struct |
| ChainTransforms.PatchedModule | crates/next-custom-transforms/src/chain_transforms.rs:364-383 | a configured module system is kept; otherwise the result is CommonJS ignoring dynamic imports, and it changes exactly when the file has a CommonJS marker and parses as a module that contains CommonJS |
| ChainTransforms.PatchIdempotent | crates/next-custom-transforms/src/chain_transforms.rs:361-386 | patching a second time changes nothing more |
| ChainTransforms.NoMarkerNoCommonJs | crates/next-custom-transforms/src/chain_transforms.rs:364-367 | a file without "module.exports", "exports." or "__esModule" keeps its module system whatever the parser says |
| ChainTransforms.TransformOptions.constructor | crates/next-custom-transforms/src/chain_transforms.rs:36-40 | the options as given: whether `.swcrc` is read, the module system, the syntax and the target |
| ChainTransforms.TransformOptions.Patch | crates/next-custom-transforms/src/chain_transforms.rs:361-386 | `.swcrc` is no longer read and the module system becomes the patched one |
| ChainTransforms.HasCjsMarker | crates/next-custom-transforms/src/chain_transforms.rs:366-368 | the source mentions module.exports, exports. or __esModule; NoMarkerNoCommonJs proves a source without one keeps its module system |
| ChainTransforms.ShouldEnableCommonJs | crates/next-custom-transforms/src/chain_transforms.rs:365-383 | no module system is configured, the source carries a marker and it parses as a module containing CommonJS; PatchedModule changes the module system exactly then |
| ChainTransforms.ContainsPrefix | crates/next-custom-transforms/src/chain_transforms.rs:366-368 | a text containing a string contains each of its prefixes, so a source without "exports" has no "exports." |
| ChainTransforms.FieldValues | crates/next-custom-transforms/src/chain_transforms.rs:471-475 | the values given for the key field, in order and no more than the fields; SomeStructLenient shows a lone value decodes and a repeated key is refused |
| ChainTransforms.DecodeOptionalUsize | crates/next-custom-transforms/src/chain_transforms.rs:471-475 | null decodes to none and a number fitting usize to that number; nothing else decodes |
| ChainTransforms.IsEmptyStruct | crates/next-custom-transforms/src/chain_transforms.rs:427-436 | what the empty struct accepts: an object without fields or an empty array; DeserializeBoolOr proves either reads as enabled |
| Ordering.StrictTotal | turbopack/crates/turbopack-core/src/issue/mod.rs:521-530 | an order that is irreflexive, transitive and relates any two distinct values, which the derived order of issue items must be; LexStrictTotal and StringLessStrictTotal prove it of the orders used |
| Ordering.LexLess | turbopack/crates/turbopack-core/src/issue/mod.rs:521-530 | the lexicographic order Rust derives: the first differing element decides and a proper prefix comes first; LexStrictTotal proves it strict and total |
| Ordering.LexIrreflexive | turbopack/crates/turbopack-core/src/issue/mod.rs:521-530 | no sequence is lexicographically below itself |
| Ordering.LexTransitive | turbopack/crates/turbopack-core/src/issue/mod.rs:521-530 | the lexicographic order is transitive over a transitive element order |
| Ordering.LexTotal | turbopack/crates/turbopack-core/src/issue/mod.rs:521-530 | any two distinct sequences are ordered one way or the other |
| Ordering.LexStrictTotal | turbopack/crates/turbopack-core/src/issue/mod.rs:521-530 | the lexicographic order over a strict total order is a strict total order |
| Ordering.StringLess | turbopack/crates/turbopack-core/src/issue/mod.rs:595-598 | the order of strings by their characters, which breaks ties between traces of the same length; StringLessStrictTotal proves it strict and total |
| Ordering.StringLessStrictTotal | turbopack/crates/turbopack-core/src/issue/mod.rs:595-598 | the order of strings is a strict total order |
| Ordering.Sorted | turbopack/crates/turbopack-core/src/issue/mod.rs:595-598 | each element is at most every later one, which SortBySorted proves of the sorted traces |
| Ordering.Insert | turbopack/crates/turbopack-core/src/issue/mod.rs:595-598 | inserting into a sorted list adds the element and keeps the others; InsertSorted proves it keeps the list sorted |
| Ordering.InsertSorted | turbopack/crates/turbopack-core/src/issue/mod.rs:595-598 | inserting into a sorted list under a strict total order keeps it sorted |
| Ordering.SortBy | turbopack/crates/turbopack-core/src/issue/mod.rs:595-598 | the traces sorted: a permutation of its input of the same length, which SortBySorted proves sorted |
| Ordering.SortBySorted | turbopack/crates/turbopack-core/src/issue/mod.rs:595-598 | sorting under a strict total order gives a sorted list |

## Left out

- Turbo-tasks plumbing: value cells, `.await` reads, task caching, issue emission and tracing spans. Functions take their inputs as plain values and return plain results; an emitted issue becomes part of the result where a decision depends on it.
- File-system and network I/O, `find_context_file`, the resolvers and Node.js resolution. They are function parameters (oracles) of the model.
- Concurrency: threads, channels, locks, the scheduler and parallel iteration. The model is sequential.
- SWC syntax trees, serde and serde_json, zstd compression, the AMQF filter, dictionary training and xxh3 hashing. They are opaque parameters, or numbers standing for their results.
- Regular expressions are written out as predicates, or passed in as predicates where the pattern is configuration.
- Text is treated as ASCII everywhere: a Rust byte index and a character index coincide.
- Floating point (byte and duration formatting, revalidate numbers) is not modelled.
- `normalize_path` and `join_path` live in turbo-tasks-fs's util.rs, which is not part of this model. Chunking.NormalizePath and Chunking.JoinFsPath follow their documented behaviour, which `new_normalized` (turbopack/crates/turbo-tasks-fs/src/lib.rs:1345-1363) relies on.
- PatternStrip.StripPrefixLenTokens: `strip_prefix_len` counts UTF-8 bytes (`c.len()`), and slicing inside a multi-byte character panics. The model (PatternStrip.StripPrefixLen) counts characters, so it does not capture that panic.
- PatternStrip.StripSuffixLenTokens: `strip_suffix_len` also counts UTF-8 bytes, and it can panic when slicing inside a multi-byte character; the model counts characters.
- PatternStrip.StripSuffixLenTokens: the source panics with "strip_suffix prefix is too long" when a dynamic part would have to be stripped. The model makes that a `CanStripSuffix` precondition of PatternStrip.StripSuffixLen.
- PatternStrip.StripSuffixLenTokens: stripping 0 characters from alternatives with a bare dynamic alternative panics in the source. This is the same slip as the `strip_prefix_len` finding below. The model follows the corrected rule; the as-written panic is not modelled for the suffix side.
- Issues.ToSwcOffsets: the source adds 1 to `u32` offsets, which can overflow at `u32::MAX`. The model uses unbounded naturals and does not capture that overflow.
- Issues.ToSwcOffsets: `find_offset` panics when a line/column position names a line past the end of the file. The model makes the line being in range a precondition, not an error result.
- Issues.FindOffset: the same out-of-range panic is the precondition `pos.line < |lines|`.
- FsPath.ValidatePathLength: the source measures the file name and the path in bytes of their encoding; the model counts characters. The Windows branch (a different limit and a different check) is not modelled.
- SstBuilder.BuildKeyBlock: the `debug_assert` that a key block holds fewer than 2^24 entries is modelled as a failure result, as in the layout functions.
- SstBuilder: the filter, the serialization of the metadata, compression and the file I/O of the SST writer are parameters or are left out. The `next_block_index` call whose result is discarded (static_sorted_file_builder.rs:495) has no effect and is not modelled.
- TasksUtil.IntoChunks.CollectRanges: requires a chunk size above 0. With 0 the source yields empty chunks forever.
- CodeBuilding: `SourcePos::update` (source_pos.rs) is not part of this model; it is modelled from its documented behaviour, with one character per byte. The rope buffers are a plain sequence of bytes, and a source map is its text.
- Chunking: the mangling options of `MinifyType::Minify`, chunk-group generation, and the runtime code of the chunks are not modelled. `AssetIdent::output_name` is a parameter (the output name). The xxh3 hash of a chunk's content is a given number.
- Chunking.AssetFileName: slicing a content hash shorter than 8 characters panics in the source. The model returns an error.
- BrowserChunking.ChunkPath: the `debug_assert` that the extension starts with "." is not modelled.
- ChainTransforms.TransformOptions.Patch: parsing the file with SWC and `contains_cjs` form one oracle, `containsCjs`. It answers false when the file does not parse, like `unwrap_or_default`.
- ChainTransforms.DeserializeBoolOr: serde's untagged buffering and its exact error text are not modelled. Any value none of the variants takes gives one error.
- Patterns: `Pattern::extend` (pattern.rs:380-395) is not modelled as an operation of its own. It is a loop over the two list helpers the model does have: `concatenation_extend_or_merge_items` and `concatenation_push_or_merge_item` (Patterns.ExtendOrMergeTokens and Patterns.PushOrMergeTokens).
- Watcher.DiskWatcher.EnsureWatchedFile: `ensure_watched_file` (watcher.rs:719-729) calls `ensure_watched` as written. The model calls the corrected Watcher.DiskWatcher.EnsureWatched, so the watched-parents invariant holds after it. The as-written walk, which can break the invariant, is Watcher.DiskWatcher.EnsureWatchedAsWritten.
- Watcher.DiskWatcher.EnsureWatchedDir: likewise, `ensure_watched_dir` (watcher.rs:731-736) calls `ensure_watched` as written, while the model calls the corrected Watcher.DiskWatcher.EnsureWatched.
- MetadataRoute: the validation in `AppPage::push` (app_page.rs) is not part of this model; pushing a segment appends it.
- EsmExport: insertion order of the index maps is not modelled (plain maps). `expand_star_exports` is a parameter where other functions call it as a task. `follow_reexports` takes at most a fuel number of steps, and a longer chain gives no result. The special case of `EcmascriptModulePartAsset` in `find_export_from_reexports` is left out.
- References: the short runtime names of the free-variable references (runtime_functions.rs) are not part of this model. The evaluation of JavaScript values is given as input.
- RawVcs: the chains of task outputs a resolution follows are bounded by fuel. A chain longer than the fuel gives the error `FuelExhausted`, which the source does not have.
- ExternalModule.StringifyJs: `StringifyJs` lives in turbopack-ecmascript's utils.rs, which is not part of this model. It is modelled as the serde_json string serialisation it delegates to. Text is ASCII here (see above), so surrogate pairs do not arise, and ExternalModule.Unescape does not read a `\u` escape of a surrogate code unit.
- HandleExternals.ParentDir: only the text before the last "/" is taken; `Path::parent`'s handling of a trailing "/" and of "." components is not modelled, and its contract states only that the parent is shorter.
- Operations.TaskGuard: restoring a task's data from the backing storage (`task`, `task_pair`) and scheduling (`schedule`, `schedule_task`) are not modelled; a guard starts from given storage.
- Operations.TaskGuard: `get`, `get_mut`, `get_mut_or_insert_with`, `count`, `iter` and `extract_if` are not modelled; `has_key` and `is_immutable` are membership tests (HasKey, IsImmutable).
- Operations.TaskGuard: `check_access` is a debug assertion; the guard methods do not check it, AccessAllowed states the rule.
- Operations.Schema: item persistence and categories come from data.rs, which is not part of this model; they are a parameter. `into_specific` is taken as the identity on the category recorded.
- Operations.TaskGuard.Add: storage.rs is not part of this model; its `add` is taken as "insert when absent".
- Operations.AnyOperation: the concrete operations are named by an id; their own effects are modelled only for UpdateCell.
- The `Debug` output of guards is not modelled.
- UpdateCell: `make_task_dirty_internal` (invalidate.rs) is not part of this model; making a dependent dirty is an event plus the dependent joining the aggregation queue.
- UpdateCell: the aggregation queue's `process` is one step; its effect is an event.
- UpdateCell: cell contents are numbers; `into_typed` and dropping old content are not modelled; modification tracking through the guard is not modelled here (plain storage maps).
- UpdateCell: the suspend points of `execute` (operation_suspend_point) and persistence of operations are not modelled.
- UpdateCell.Backend.Update: the order in which storage lists the dependents is not modelled; any order is allowed.
- Watcher: recursive mode hands all watching to the notify watcher; only its effect (nothing kept) is modelled.
- Watcher: the notify watcher is reduced to the directories it is asked to watch and a function saying which watches fail; "path not found" counts as success.
- Watcher: the watcher thread's channel, timeouts and batching by try_recv, and the locks, are not modelled; Batches holds one batch.
- Watcher: invalidating readers (invalidator maps, invalidate_path, extract_path_with_children, reasons) is not modelled; Flush returns the sets to invalidate.
- Watcher: start_watching's invalidation of earlier reads and the spawned thread are not modelled.
- Watcher: path_map.rs is not part of this model; `iter_path_children` is taken as every watched directory below the given one.
- Watcher: the iteration order of the watched BTreeSet is not modelled.
- Watcher: notify's event kinds are reduced to the cases the watcher tells apart (MetadataKind other than Any, RenameMode other than Both).

## Findings

| source | as written | input that shows it | evidently intended | confidence | as-written member | corrected member |
|---|---|---|---|---|---|---|
| turbopack/crates/turbopack-core/src/resolve/pattern.rs:512-515 | inside a concatenation, an empty piece of a constant is skipped together with the separator that follows it | `Concatenation([Constant("src/"), Dynamic, Constant("/x")])`: the "/" between the dynamic part and "x" disappears, giving src/·Dynamic·x | an empty piece right after a dynamic part still ends that segment, so the "/" is kept | medium; not executed | PatternPath.LostSeparatorAsWritten | PatternPath.LostSeparatorCorrected |
| turbopack/crates/turbopack-core/src/resolve/pattern.rs:522-530 | a ".." whose predecessor is a separator after any constant segment pops both, even when that constant is itself a kept ".." | `Concatenation([Dynamic, Constant("../..")])`: the second ".." removes the first, leaving only the dynamic part | a kept ".." is never popped by a later "..", so both stay | medium; not executed | PatternPath.DotDotCancelsDotDotAsWritten | PatternPath.DotDotCancelsDotDotCorrected |
| turbopack/crates/turbopack-core/src/resolve/pattern.rs:274-279 | each alternative is stripped even when nothing is to be stripped, and a dynamic alternative then fails with "prefix is too long" | `strip_prefix_len(0)` on `Alternatives([Dynamic, Constant("a")])` fails, while on a bare `Dynamic` it succeeds | stripping nothing never fails | medium; not executed | PatternStrip.StripPrefixZeroAsWritten | PatternStrip.StripPrefixZero |
| turbopack/crates/turbopack-core/src/resolve/pattern.rs:1020-1022 | a dynamic part that matched the empty text before a constant is not collected | match `a·Dynamic·b` (b starting with ".") against `a + b` and apply the template `a'·Dynamic·b'`: the result is none instead of `a' + b'` | every dynamic part yields its text, empty or not, so a matching value always rewrites | medium; not executed | PatternMatch.EmptyDynamicLostAsWritten | PatternMatch.BetweenTemplate |
| crates/next-core/src/next_server/resolve.rs:323-342 | the two "no name or version" messages are attached to the wrong package.json: the one about the package found from the project directory does not name it, and the one about the importing module's package does | the package.json resolved from the project directory has no "version" field: the message reads "The package.json of the package has no name or version." | the message names the project directory exactly when that package.json is at fault | medium; not executed | NextServerResolve.NoNameOrVersionMessagesSwapped | NextServerResolve.MessageNamesFaultySide |
| turbopack/crates/turbo-tasks-fs/src/watcher.rs:241-247 | ensure_watched records the directory in the watched set before the walk and keeps it there when the walk fails | root `r`, directory `r/a/b`, nothing watched, the watch of `r/a` fails (for example when the system's watch limit is reached) | record a directory only once it and its parents are watched, so the invariant stated at lines 125-128 survives errors and a later call retries | medium; not executed | Watcher.DiskWatcher.EnsureWatchedAsWritten, Watcher.FailedWatchBreaksInvariant | Watcher.DiskWatcher.EnsureWatched |
