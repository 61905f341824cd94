# doccer core in Dafny

doccer reads the rustdoc JSON of a crate and writes a plain-text outline of its
public API: one line per signature, doc comments as `///` lines, nested items
indented two spaces per level. This project models its two halves:

- **the parser** (`src/parser/parser.rs`, `src/parser/types.rs`), which walks
  rustdoc's item index from the root module and builds a `ParsedModule` tree of
  functions, structs, enums, traits, constants, modules, macros and trait impls;
- **the renderer** (`src/renderer/*.rs`), which turns that tree into text.

Modules, following the program's structure:

| module | file | models |
|---|---|---|
| `Wrappers` | wrappers.dfy | `Option` and `Result` (`anyhow::Result` with its error message) |
| `Strings` | strings.dfy | the standard string operations used: `join`, `repeat`, `find`, `contains`, `replace`, `split("::").last()`, `lines()`, `trim().is_empty()`, and writing lines each followed by `"\n"` |
| `Lists` | lists.dfy | the two loop shapes the parser uses: keep the `Some` results of a step (`FilterMap`), and the same with `?` stopping at the first error (`CollectAll`) |
| `Types` | types.dfy | the parsed data model of `types.rs` and `RustType`'s `Display` |
| `Raw` | raw.dfy | rustdoc's `Crate` and the JSON shapes the parser inspects |
| `TypeResolver` | type_resolver.dfy | `parse_type` |
| `GenericsResolver` | generics_resolver.dfy | `parse_generics` |
| `ItemParser` | item_parser.dfy | `should_filter_trait_impl` and all the other `parse_*` functions |
| `RenderContexts` | render_contexts.dfy | `RenderContext` (`traits.rs`) |
| `Components` | components.dfy | `TypeRenderer`, `DocRenderer`, `IndentationHelper` (`components.rs`) |
| `Renders` | renders.dfy | every `impl Render` in `renders.rs` |
| `RenderExamples` | render_examples.dfy | the renderer unit tests' scenarios, computed from the model |
| `CrateRenderer` | crate_renderer.dfy | `ParsedRenderer::render` (`renderer.rs`) |

How the model is built:

- **Parser.** Each parser function that builds a list in a loop is a `method`
  with a `while` loop. The method is proved equal to a specification
  function. The properties are then lemmas about that function, such as:
  - which errors can occur;
  - which items are kept;
  - that order is preserved.

  `should_filter_trait_impl`, `parse_macro` and `parse_constant` have no
  loop, so they are functions. `parse_type` is a function too. Its loops over
  a path's arguments, a tuple's elements, and a `dyn` type's traits and their
  constraints each call `parse_type` on every element. They are modelled as
  the recursive functions `TypeArgs`, `ParseTypes`, `DynTraitNames` and
  `ConstraintTexts`.
- **Recursion.** `parse_item` and `parse_module` call each other. This
  terminates because of a rank on item ids under which a module's children
  rank below it. `Ranked` states this as a precondition, and it holds for
  rustdoc output, where modules form a tree.
- **Renderer.** Each render is a function returning its lines. The text is
  those lines, each followed by `"\n"` (`Strings.ConcatLines`).
  - Blank separator lines are empty elements of that list.
  - Every render writes each line as its indentation followed by the text.
  - The `Indented` lemmas are about that list. Every element a render
    produces, nested renders included, is blank or starts with its context's
    indentation. An element is exactly one written line when it holds no
    newline (`Strings.LinesOfConcatLines`). The one element whose text comes
    from the input unchanged and can hold a newline is a macro signature
    (see "## Left out").
- **Loop methods.** `ParsedRenderer::render` and `DocRenderer::render_docs`
  build strings in loops, so they are methods proved equal to those
  functions.
- **Hard-coded names.** The renderer's special cases for particular names
  (`Result`, `Storage`, `Person`, `Protocol`, `Cacheable`, `Error`, `Key`,
  `to_string`, `fmt`, `handle`) are kept as they are written. For every
  other name, `*General` lemmas state the general rule.

## Model

| member | source | states |
|---|---|---|
| Strings.JoinAppend | src/renderer/components.rs:49 | Joining one more part appends the separator and that part. |
| Strings.Repeat | src/renderer/traits.rs:27-29 | Repeating `n` times gives a text `n` times as long. |
| Strings.RepeatPairOfSpaces | src/renderer/traits.rs:27-29 | `"  ".repeat(n)` is `2n` spaces. |
| Strings.IndexOf | src/parser/parser.rs:838-839 | `find` returns the first position where the pattern occurs, or none when it occurs nowhere. |
| Strings.IndexOfChar | src/parser/parser.rs:838-839 | Finding a character fails exactly when it is absent. Otherwise it returns a position holding that character, with no earlier occurrence. |
| Strings.LastSegment | src/parser/parser.rs:59 | `split("::").last()` returns a suffix of the path that contains no separator. It is the whole path when the separator does not occur, and otherwise a separator comes just before it. |
| Strings.LastSegmentWithoutSeparator | src/parser/parser.rs:59 | A path without a separator character is its own last segment. |
| Strings.ReplaceWithoutOccurrence | src/parser/parser.rs:198 | `replace` leaves a text without the pattern unchanged. |
| Strings.Lines | src/renderer/components.rs:71 | No line returned by `lines()` contains a newline. |
| Strings.ConcatLinesAppend | src/renderer/renders.rs:59 | Writing two line lists one after the other writes their concatenation. |
| Strings.LinesOfConcatLines | src/renderer/components.rs:71-77 | `lines()` of lines written each followed by a newline gives the lines back, when they hold no newline and no trailing carriage return. |
| Lists.FilterMap | src/parser/parser.rs:519-536 | Keeping the `Some` results of a step gives at most one output per input. |
| Lists.FilterMapEmpty | src/parser/parser.rs:519-536 | Nothing is kept exactly when every step gives `None`. |
| Lists.FilterMapAllSome | src/parser/parser.rs:519-536 | When every step gives `Some`, every result is kept, in order. |
| Lists.FilterMapMember | src/parser/parser.rs:519-536 | A value is kept exactly when some step gives it. |
| Lists.FilterMapAppend | src/parser/parser.rs:519-536 | The kept results of a concatenation are those of its parts, in order. |
| Lists.CollectAllErrExtends | src/parser/parser.rs:81-85 | Once a `?` inside the loop has failed, the later inputs change nothing. |
| Lists.CollectAllErr | src/parser/parser.rs:81-85 | The loop fails exactly when some step fails, and then with the error of the first failing step. |
| Lists.CollectAllOk | src/parser/parser.rs:81-85 | When no step can fail, the loop succeeds with the kept `Some` results. |
| Lists.CollectAllKept | src/parser/parser.rs:81-85 | A loop that succeeds keeps exactly the values its steps yield, in order. |
| Types.Display | src/parser/types.rs:41-103 | `impl Display for RustType`. It has no contract of its own. The texts of its shapes are stated by Types.DisplayForms. |
| Types.DisplayAll | src/parser/types.rs:41-103 | One `Display` text per type, in order. |
| Types.DisplayForms | src/parser/types.rs:42-102 | The text of every `RustType` shape, for example `()` for `Unit`, `...` for `Unknown`, `*const T` and `dyn 'a A + B`. |
| Types.DisplayNewlineFree | src/parser/types.rs:42-102 | A type whose names hold no newline displays without one, so a signature stays on one line. |
| Types.DisplayAllNewlineFree | src/parser/types.rs:42-102 | The same for a list of types. |
| Types.JoinNewlineFree | src/parser/types.rs:42-102 | Joining newline-free parts with a newline-free separator gives no newline. |
| TypeResolver.ParseType | src/parser/parser.rs:164-342 | `parse_type`. It has no contract of its own. What it promises is stated by the ParseType* lemmas and by the round trip TypeResolver.ParseRawOf. Its array size is the corrected text (see "## Findings"). |
| TypeResolver.ParseTypes | src/parser/parser.rs:248-251 | Tuple elements are parsed one by one, in order. |
| TypeResolver.ParseTypeUnit | src/parser/parser.rs:164-254 | The parsed type is `Unit` exactly for JSON `null` and the empty tuple. |
| TypeResolver.ParseTypeUnknown | src/parser/parser.rs:164-342 | The parsed type is `Unknown` exactly when no recognised key applies. |
| TypeResolver.ParseTypeDefaults | src/parser/parser.rs:182-267 | The fallbacks for missing fields: path `unknown`, not mutable, pointee `Unknown`, array size `N`. |
| TypeResolver.NormalizeCratePath | src/parser/parser.rs:189-203 | The `$crate::` normalisation of a resolved path, stated by TypeResolver.NormalizeFixed, TypeResolver.NormalizeCrateRest and TypeResolver.NormalizeUnprefixed. |
| TypeResolver.NormalizeFixed | src/parser/parser.rs:190-200 | The four fixed `$crate::` renamings. |
| TypeResolver.NormalizeCrateRest | src/parser/parser.rs:190-200 | Any other `$crate::` path becomes `std::` followed by the rest with every further `$crate::` replaced too. A rest without `$crate::` is kept unchanged. |
| TypeResolver.NormalizeUnprefixed | src/parser/parser.rs:190-203 | A path not starting with `$crate::` is kept unchanged. |
| TypeResolver.ParseRawOf | src/parser/parser.rs:164-342 | Round trip: parsing the rustdoc JSON of a canonical type gives that type back. A canonical type has no empty tuple, no `$crate::` path, and qualified paths only on `Self`, which are the shapes parsing produces. |
| TypeResolver.ParseRawOfAll | src/parser/parser.rs:248-251 | The same for a list of types. |
| TypeResolver.TypeArgsRawArgsOf | src/parser/parser.rs:205-217 | Round trip for the type arguments of a path. |
| TypeResolver.DynTraitNamesRawOf | src/parser/parser.rs:293-338 | Round trip for the trait names of a `dyn` type. |
| TypeResolver.JsonStringLiteral | src/parser/parser.rs:264-267 | `Value::to_string` of a JSON string is enclosed in double quotes. |
| TypeResolver.ArrayLenAsWrittenQuotes | src/parser/parser.rs:264-267 | As written, the length `"4"` is rendered as `[u8; "4"]`. |
| TypeResolver.ArrayLenAsWrittenNeverPlain | src/parser/parser.rs:264-267 | As written, no length is ever rendered as its plain text. |
| TypeResolver.ArrayDisplaysLen | src/parser/parser.rs:261-270 | Corrected: an array displays its element type and its length text, e.g. `[u8; 4]`. |
| GenericsResolver.ParseBounds | src/parser/parser.rs:356-366 | The bounds loop gives the trait-bound paths in order. |
| GenericsResolver.GenericsOf | src/parser/parser.rs:344-423 | The specification of `parse_generics`, stated by GenericsResolver.ParamsInOrder and GenericsResolver.WhereClauseEmitted. |
| GenericsResolver.ParseGenerics | src/parser/parser.rs:344-423 | The two loops give the generics of the specification function, whose properties are below. |
| GenericsResolver.ParamsInOrder | src/parser/parser.rs:348-381 | The parsed parameters are the non-const parameters, in order, each with its name, and with its trait-bound paths for a type parameter or no bounds for a lifetime. Without const parameters, every parameter is kept. |
| GenericsResolver.ParamsSkipConst | src/parser/parser.rs:348-381 | Parsing the parameters gives the same as parsing only the non-const ones. |
| GenericsResolver.ConstParamDropped | src/parser/parser.rs:348-381 | A const parameter anywhere in the list contributes nothing. |
| GenericsResolver.BoundPathsInOrder | src/parser/parser.rs:356-366 | Trait bounds keep their paths in order. A path is kept exactly when it is a trait bound. |
| GenericsResolver.WhereClauseEmitted | src/parser/parser.rs:384-417 | A clause `T: A + B` is written exactly for a bound predicate with a trait bound. The constrained name is `Self` unless it is a named generic. |
| ItemParser.ShouldFilterTraitImpl | src/parser/parser.rs:16-68 | `should_filter_trait_impl`, check by check in the source's order. It has no contract of its own; ItemParser.ShouldFilterIff states it. |
| ItemParser.FunctionOf | src/parser/parser.rs:425-489 | The specification of `parse_function`, stated by ItemParser.FunctionInputsKept. |
| ItemParser.ImplItemOf | src/parser/parser.rs:904-925 | The specification of `parse_trait_impl_item`, stated by ItemParser.ImplItemKinds: an associated type with its type, or `()` without one, and a method. Other kinds give nothing. |
| ItemParser.TraitImplOf | src/parser/parser.rs:858-901 | The specification of `parse_trait_impl`. ItemParser.TraitImplParts states its result and ItemParser.TraitImplErrors its errors. |
| ItemParser.ImplsOf | src/parser/parser.rs:543-591 | The specification of the impl loop of `parse_struct`. ItemParser.ImplsParts states what it gives, ItemParser.ImplsKeepUnfiltered the trait impls and ItemParser.ImplsErrors the errors. |
| ItemParser.ImplStepOf | src/parser/parser.rs:545-589 | One step of that loop. ItemParser.ImplStepParts states every case, ItemParser.InherentMethodsAllNamed the inherent impl and ItemParser.ImplStepKept the kept trait impl. |
| ItemParser.StructOf | src/parser/parser.rs:491-603 | The specification of `parse_struct`, stated by ItemParser.StructParts. |
| ItemParser.VariantOf | src/parser/parser.rs:645-698 | The specification of `parse_variant`, stated by ItemParser.VariantParts, ItemParser.TupleVariantTypes and ItemParser.StructVariantFields. |
| ItemParser.EnumOf | src/parser/parser.rs:605-643 | The specification of `parse_enum`. ItemParser.EnumVariants states its variants and ItemParser.EnumErrors its errors. |
| ItemParser.TraitItemOf | src/parser/parser.rs:744-774 | The specification of `parse_trait_item`, stated by ItemParser.TraitItemKinds. |
| ItemParser.TraitOf | src/parser/parser.rs:700-742 | The specification of `parse_trait`. ItemParser.TraitItems states its members and ItemParser.TraitErrors its errors. |
| ItemParser.ConstantOf | src/parser/parser.rs:776-799 | `parse_constant`: the name, visibility, parsed type, docs and deprecation, or `Constant missing name`. |
| ItemParser.MacroOf | src/parser/parser.rs:826-856 | `parse_macro`; ItemParser.MacroSignature states its signature. The matcher text is copied unchanged. |
| ItemParser.ItemOf | src/parser/parser.rs:94-161 | The specification of `parse_item`, stated by ItemParser.ItemKinds (a missing id gives nothing), ItemParser.NamelessItemFails and ItemParser.ItemErrors. |
| ItemParser.ModuleOf | src/parser/parser.rs:801-824 | The specification of `parse_module`. |
| ItemParser.ModuleItemsOf | src/parser/parser.rs:809-816 | The specification of a module's item loop, stated by ItemParser.ModuleItemsFail, ItemParser.ModuleItemSkipped and ItemParser.ModuleItemsSkipMissing. |
| ItemParser.CrateOf | src/parser/parser.rs:70-92 | The specification of `parse_crate`, stated by ItemParser.CrateErrors. |
| ItemParser.ImplsErrExtends | src/parser/parser.rs:543-591 | Once an impl fails, later impls change nothing. |
| ItemParser.ModuleItemsErrExtends | src/parser/parser.rs:809-816 | Once an item of a module fails, later items change nothing. |
| ItemParser.ParseFunction | src/parser/parser.rs:425-489 | The inputs loop gives the function of `FunctionOf`. |
| ItemParser.ParseInherentMethods | src/parser/parser.rs:554-570 | The methods loop collects the methods, stopping at the first error. |
| ItemParser.ParseTraitImplItem | src/parser/parser.rs:904-925 | `parse_trait_impl_item` as specified by `ImplItemOf`. |
| ItemParser.ParseTraitImpl | src/parser/parser.rs:858-901 | The items loop of `parse_trait_impl`: `None` without a trait, else the kept items in order. |
| ItemParser.ParseStructFields | src/parser/parser.rs:515-540 | The fields loop keeps the ids that are struct fields, in order. |
| ItemParser.ParseImpl | src/parser/parser.rs:545-589 | One impl: its methods if inherent, its trait impl if not filtered. |
| ItemParser.ParseImpls | src/parser/parser.rs:543-591 | The impls loop, stopping at the first error. |
| ItemParser.ParseStruct | src/parser/parser.rs:491-603 | `parse_struct` as specified by `StructOf`. |
| ItemParser.ParseVariant | src/parser/parser.rs:645-698 | `parse_variant` as specified by `VariantOf`. |
| ItemParser.ParseEnum | src/parser/parser.rs:605-643 | `parse_enum` as specified by `EnumOf`. |
| ItemParser.ParseTraitItem | src/parser/parser.rs:744-774 | `parse_trait_item` as specified by `TraitItemOf`. |
| ItemParser.ParseTrait | src/parser/parser.rs:700-742 | `parse_trait` as specified by `TraitOf`. |
| ItemParser.ParseItem | src/parser/parser.rs:94-161 | `parse_item` as specified by `ItemOf`. |
| ItemParser.ParseModule | src/parser/parser.rs:801-824 | `parse_module` as specified by `ModuleOf`. |
| ItemParser.ParseModuleItems | src/parser/parser.rs:809-816 | A module's item loop. |
| ItemParser.ParseCrate | src/parser/parser.rs:70-92 | `parse_crate` as specified by `CrateOf`. |
| ItemParser.AnyDeriveIff | src/parser/parser.rs:25 | The derive test holds exactly when some attribute contains `#[derive`. |
| ItemParser.ShouldFilterIff | src/parser/parser.rs:16-68 | An impl is filtered exactly when at least one of these holds: it is synthetic; it has a derive attribute; it has a non-null blanket impl; or the last segment of its trait path is in the auto-trait list. |
| ItemParser.FunctionInputsKept | src/parser/parser.rs:425-489 | A function fails exactly when it has no name. Otherwise it keeps the name, every input in order with its parsed type, the output and the generics. |
| ItemParser.ImplsKeepUnfiltered | src/parser/parser.rs:571-584 | A struct's trait impls are exactly the unfiltered trait impls of its impl list, in order, and none of them names a filtered trait. |
| ItemParser.ImplStepKept | src/parser/parser.rs:571-584 | An unfiltered trait impl is appended to the trait impls and adds no method. |
| ItemParser.ImplStepParts | src/parser/parser.rs:545-589 | A step that succeeds appends the id's inherent methods to the methods and its kept trait impl to the trait impls. A missing id, an item that is not an impl and a filtered trait impl add nothing. |
| ItemParser.InherentMethodsAllNamed | src/parser/parser.rs:552-570 | An inherent impl whose members are all named functions appends every one of them, parsed, in order, and no trait impl. |
| ItemParser.ImplsParts | src/parser/parser.rs:543-591 | When the impl loop succeeds, its methods are the inherent methods of each impl, one impl after the other, and its trait impls are the kept trait impls, in the order of the impl list. |
| ItemParser.StructParts | src/parser/parser.rs:491-603 | A struct fails exactly without a name or when its impl loop fails, with one of two messages. Otherwise it has its name and generics, its present plain fields, the inherent methods of its impls and its kept trait impls. |
| ItemParser.VariantParts | src/parser/parser.rs:645-698 | A variant fails exactly without a name. A non-variant item and a plain variant are unit variants; tuple and struct fields give tuple and struct variants. |
| ItemParser.TupleVariantTypes | src/parser/parser.rs:655-668 | A tuple variant whose ids all name struct fields has their parsed types, in order. |
| ItemParser.StructVariantFields | src/parser/parser.rs:670-686 | A struct variant whose ids all name struct fields has their names (`unknown` when nameless) and parsed types, in order. |
| ItemParser.EnumVariants | src/parser/parser.rs:605-643 | An enum fails exactly when it or a present variant has no name. Otherwise its variants are the present ids' variants, in order, one per id when all are present. |
| ItemParser.TraitItemKinds | src/parser/parser.rs:744-774 | An associated type has no bounds, a method fails exactly without a name, an associated constant has its parsed type, and other kinds give nothing. |
| ItemParser.TraitItems | src/parser/parser.rs:700-742 | A trait fails exactly when it or a present method has no name. Otherwise its members are kept in order, and no associated type has bounds. |
| ItemParser.ImplItemKinds | src/parser/parser.rs:904-925 | An associated type has its parsed type, or `()` without one; a method fails exactly without a name; other kinds give nothing. |
| ItemParser.TraitImplParts | src/parser/parser.rs:858-901 | An impl without a trait gives nothing. A trait impl fails exactly when a present method has no name; otherwise it has its trait path, parsed self type, docs and members in order. |
| ItemParser.ModuleItemSkipped | src/parser/parser.rs:94-98 | A module item id missing from the index adds nothing to the module's items. |
| ItemParser.ModuleItemsSkipMissing | src/parser/parser.rs:809-816 | A module's items are those of its ids that are present in the index. |
| ItemParser.ImplsNoDedup | src/parser/parser.rs:543-591 | The same impl listed twice is kept twice. |
| ItemParser.InherentMethodErrors | src/parser/parser.rs:554-570 | Collecting methods can fail only with `Function missing name`. |
| ItemParser.TraitImplErrors | src/parser/parser.rs:876-890 | A trait impl can fail only with `Function missing name`. |
| ItemParser.ImplsErrors | src/parser/parser.rs:543-591 | The impls loop can fail only with `Function missing name`. |
| ItemParser.EnumErrors | src/parser/parser.rs:605-643 | An enum can fail only with a missing enum or variant name. |
| ItemParser.TraitErrors | src/parser/parser.rs:700-742 | A trait can fail only with a missing trait or method name. |
| ItemParser.ItemErrors | src/parser/parser.rs:94-161 | Every item error is one of the missing-name errors. |
| ItemParser.ModuleItemsErrors | src/parser/parser.rs:809-816 | The same for a module's items. |
| ItemParser.ModuleItemsFail | src/parser/parser.rs:809-816 | A module's items fail exactly when one item fails, and then with the first failing item's error. |
| ItemParser.CrateErrors | src/parser/parser.rs:70-92 | The crate fails only for a missing root or a missing name. `Root module not found` occurs exactly when the root id is absent. |
| ItemParser.ItemKinds | src/parser/parser.rs:94-161 | An id missing from the index gives nothing. Otherwise, the kind of item each rustdoc kind becomes. Fields, variants, associated items, other kinds and inherent impls give nothing. |
| ItemParser.NamelessItemFails | src/parser/parser.rs:94-161 | The error each kind gives without a name. A nameless module is named `unknown`. |
| ItemParser.MacroSignature | src/parser/parser.rs:826-856 | The macro line: the name alone without `(`, `(...)` without `)`, else the text between the first `(` and the first `)`. |
| RenderContexts.RenderContext.WithDepth | src/renderer/traits.rs:19-25 | The copy has the requested depth and keeps the other settings. |
| RenderContexts.RenderContext.Indent | src/renderer/traits.rs:27-29 | Two spaces per level of depth. |
| RenderContexts.New | src/renderer/traits.rs:11-17 | Depth 0, private items hidden, text format, empty indentation. |
| RenderContexts.Default | src/renderer/traits.rs:32-35 | The default context is `new()`. |
| RenderContexts.IndentOfDepth | src/renderer/traits.rs:27-29 | Two indentations are equal exactly when the depths are. |
| RenderContexts.IndentPrefix | src/renderer/traits.rs:19-29 | A deeper context's indentation extends a shallower one by two spaces per extra level. |
| Components.RenderVisibility | src/renderer/components.rs:13-20 | The visibility text is empty exactly for default visibility. Otherwise it starts with `pub` and ends with a space. |
| Components.VisibilityDistinct | src/renderer/components.rs:13-20 | Two visibilities render alike exactly when they are equal, or when one is `pub(crate)` and the other a restriction to `crate`. |
| Components.ParamTexts | src/renderer/components.rs:27-47 | One text per generic parameter, in order. |
| Components.LifetimeApostrophe | src/renderer/components.rs:38-44 | A lifetime gets exactly one leading apostrophe, and rendering is idempotent. |
| Components.TypeParamText | src/renderer/components.rs:31-37 | A type parameter is its name, extended exactly when it has bounds. |
| Components.RenderGenerics | src/renderer/components.rs:22-50 | Empty exactly without parameters, else the joined parameters in angle brackets. |
| Components.RenderWhereClause | src/renderer/components.rs:52-58 | Empty exactly without clauses, else ` where ` and the joined clauses. |
| Components.DocLines | src/renderer/components.rs:65-79 | The lines `render_docs` writes, stated by Components.DocLinesShape. |
| Components.DocLinesOf | src/renderer/components.rs:71-77 | One comment line per docs line, in order. |
| Components.DocLinesShape | src/renderer/components.rs:65-79 | The doc comment lines. There are none without docs, else one per line. Each starts with the indentation and `///`. A blank line has no trailing space. Every other line's text follows `/// ` unchanged. |
| Components.RenderDocs | src/renderer/components.rs:65-79 | The `render_docs` loop writes exactly those lines. |
| Components.DeprecationLines | src/renderer/components.rs:81-91 | No line without a marker. Otherwise one `DEPRECATED` line, naming the version when there is one. |
| Components.IndentForDepth | src/renderer/components.rs:98-100 | The same as the indentation of a context at that depth. |
| Renders.FunctionLines | src/renderer/renders.rs:5-62 | `impl Render for ParsedFunction`: the deprecation line, the doc lines, then the signature. |
| Renders.StructLines | src/renderer/renders.rs:64-145 | `impl Render for ParsedStruct`, stated by Renders.StructGeneral, Renders.StructWithoutMembers and Renders.StructIndented. |
| Renders.VariantLines | src/renderer/renders.rs:198-234 | `impl Render for ParsedVariant`: the doc lines, then the variant. |
| Renders.EnumLines | src/renderer/renders.rs:147-196 | `impl Render for ParsedEnum`, stated by Renders.EnumIndented. |
| Renders.TraitItemLines | src/renderer/renders.rs:311-402 | `impl Render for ParsedTraitItem`, stated by Renders.TraitGeneral and Renders.TraitItemIndented. |
| Renders.TraitLines | src/renderer/renders.rs:236-309 | `impl Render for ParsedTrait`, stated by Renders.TraitGeneral and Renders.TraitIndented. |
| Renders.ConstantLines | src/renderer/renders.rs:404-432 | `impl Render for ParsedConstant`: the deprecation line, the doc lines, the constant line and a blank line. |
| Renders.MacroLines | src/renderer/renders.rs:466-481 | `impl Render for ParsedMacro`: the doc lines, the signature and a blank line. |
| Renders.ImplItemLines | src/renderer/renders.rs:556-641 | `impl Render for ParsedTraitImplItem`, stated by Renders.TraitImplGeneral and Renders.ImplItemIndented. |
| Renders.TraitImplLines | src/renderer/renders.rs:483-554 | `impl Render for ParsedTraitImpl`, stated by Renders.TraitImplGeneral, Renders.EmptyImplUnbraced and Renders.TraitImplIndented. |
| Renders.ModuleLines | src/renderer/renders.rs:434-464 | `impl Render for ParsedModule`, stated by Renders.ModuleIndented. |
| Renders.ItemLines | src/renderer/renders.rs:643-661 | `impl Render for ParsedItem`, stated by Renders.ItemIndented. |
| Renders.SeparateBlocks | src/renderer/renders.rs:116-132 | The member loop writes the blocks with one blank line between consecutive blocks and none after the last. |
| Renders.SeparatedBlockAt | src/renderer/renders.rs:116-132 | Block `i` of the separated members starts after the blocks before it and one blank line per earlier boundary, and every block but the first follows a blank line. The same loop writes variants (180-188), trait items (293-301) and impl items (539-546). |
| Renders.SeparatedShape | src/renderer/renders.rs:116-132 | The separated blocks start with the first block and end with the last. They hold one blank line fewer than there are blocks. |
| Renders.InputTexts | src/renderer/renders.rs:32-46 | One text per input, in order. |
| Renders.ReturnText | src/renderer/renders.rs:50-54 | The return part is empty exactly for `()`. Otherwise it is ` -> ` followed by the type. |
| Renders.StructGeneral | src/renderer/renders.rs:77-124 | For other names, the struct line uses the generics' own where clause, and methods sit one level deeper. |
| Renders.FieldTexts | src/renderer/renders.rs:222-225 | One `name: type` text per field of a struct variant. |
| Renders.TraitGeneral | src/renderer/renders.rs:249-334 | For other names, the trait line uses the generics' own where clause, and an associated type shows its own bounds. |
| Renders.ImplInputTexts | src/renderer/renders.rs:595-614 | One text per impl-method input, in order. |
| Renders.TraitImplGeneral | src/renderer/renders.rs:511-628 | For other trait paths and names, the impl line is `impl Trait for Type`. An associated type renders as `type N = T`. A method renders as its deprecation and doc lines, then `fn name(params)` and ` -> T` unless it returns `()`, with no visibility, no generics and no where clause. |
| Renders.TraitItemIndented | src/renderer/renders.rs:311-402 | Every line of a trait item is blank or starts with the context's indentation. |
| Renders.ImplItemIndented | src/renderer/renders.rs:556-641 | The same for an impl item. |
| Renders.EnumIndented | src/renderer/renders.rs:147-233 | The same for an enum and its variants. |
| Renders.TraitIndented | src/renderer/renders.rs:236-402 | The same for a trait and its items. |
| Renders.ImplBodyIndented | src/renderer/renders.rs:511-552 | The same for an impl's signature, items and closing brace. |
| Renders.TraitImplIndented | src/renderer/renders.rs:483-553 | The same for a whole trait impl. |
| Renders.StructMethodsIndented | src/renderer/renders.rs:116-132 | A struct's methods stay inside its indentation. |
| Renders.StructImplsIndented | src/renderer/renders.rs:138-141 | So do its trait impls. |
| Renders.StructIndented | src/renderer/renders.rs:64-144 | The same for a whole struct. |
| Renders.ItemIndented | src/renderer/renders.rs:643-660 | The same for every item, nested modules included. |
| Renders.ModuleIndented | src/renderer/renders.rs:434-464 | The same for a module and everything in it. |
| Renders.ItemsIndented | src/renderer/renders.rs:456-460 | The same for a module's item list. |
| Renders.StructWithoutMembers | src/renderer/renders.rs:107-136 | A struct without docs, methods or impls is exactly its line, `}`, and a blank line. |
| Renders.EmptyImplUnbraced | src/renderer/renders.rs:524-529 | An impl without items is its unbraced line and a blank line. No line opens a block. |
| RenderExamples.CacheGenerics | src/tests/mod.rs:474-491 | The test's `Cache` generics render as `<'a, T: Cacheable>`. |
| RenderExamples.CacheHeader | src/tests/mod.rs:503 | The struct line is `pub struct Cache<'a, T: Cacheable> {`. |
| RenderExamples.CacheStructRender | src/tests/mod.rs:498-505 | The whole render is that line, `  }`, and a blank line, so the constrained form appears and the unconstrained one does not. |
| RenderExamples.HttpErrorSignature | src/tests/mod.rs:578 | The empty impl's line is `impl Error for HttpError`. |
| RenderExamples.HttpErrorImplLines | src/tests/mod.rs:563-580 | The render is the generated doc line, the impl line and a blank line. |
| RenderExamples.EmptyTraitImplRender | src/tests/mod.rs:577-580 | Three lines: a `///` comment, `  impl Error for HttpError`, and a blank line. |
| RenderExamples.EmptyTraitImplUnbraced | src/tests/mod.rs:579-580 | No line is `  impl Error for HttpError {`. |
| RenderExamples.GeneratedDocLine | src/renderer/renders.rs:490-509 | Without docs, an impl gets exactly one generated `///` line. |
| RenderExamples.SetTimeoutSignature | src/tests/mod.rs:718 | The method's line starts with `pub fn set_timeout` and lists `(&mut self, seconds: u32)`. |
| RenderExamples.DeprecatedMethodRender | src/tests/mod.rs:713-718 | At depth 1 the first line is `  DEPRECATED since 1.1.0` and the last starts with `  pub fn set_timeout`. |
| CrateRenderer.Macros | src/renderer/renderer.rs:22-25 | Every item of the first part of the partition is a macro. |
| CrateRenderer.Others | src/renderer/renderer.rs:22-25 | No item of the second part is a macro. |
| CrateRenderer.MacrosAppend | src/renderer/renderer.rs:22-25 | The macros of a concatenation are those of its parts, in order: the partition is stable. |
| CrateRenderer.OthersAppend | src/renderer/renderer.rs:22-25 | The same for the other items. |
| CrateRenderer.PartitionPermutes | src/renderer/renderer.rs:22-25 | Together the two parts hold exactly the items, as a multiset and by count. |
| CrateRenderer.NoMacrosStable | src/renderer/renderer.rs:22-25 | Without macros, the other items are all the items and no item moves. |
| CrateRenderer.AllMacrosStable | src/renderer/renderer.rs:22-25 | With only macros, the macros are all the items. |
| CrateRenderer.Partition | src/renderer/renderer.rs:22-25 | The partition loop yields the two parts. |
| CrateRenderer.TopContext | src/renderer/renderer.rs:27 | Top-level items render at depth 1, indented two spaces. |
| CrateRenderer.VersionPart | src/renderer/renderer.rs:13-15 | The version part is empty exactly without a version. |
| CrateRenderer.DocsPart | src/renderer/renderer.rs:17-19 | The docs part is empty exactly without docs. |
| CrateRenderer.RenderText | src/renderer/renderer.rs:7-41 | The whole output of `render`: the header, then the body. CrateRenderer.RenderHeader and CrateRenderer.MacrosFirst state it. |
| CrateRenderer.Render | src/renderer/renderer.rs:7-41 | `render` writes the header, then the macros, then the other items. |
| CrateRenderer.HeaderSteps | src/renderer/renderer.rs:10-19 | The header holds the crate line, and each optional part only when present. |
| CrateRenderer.ItemsLinesAppend | src/renderer/renders.rs:456-460 | Rendering a concatenated item list renders the parts one after the other. |
| CrateRenderer.ItemsTextAppend | src/renderer/renderer.rs:29-37 | The same as text. |
| CrateRenderer.RenderHeader | src/renderer/renderer.rs:10-19 | The output starts with the crate line. The version line is inserted right after it exactly when given. The docs follow the version exactly when present. |
| CrateRenderer.MacrosFirst | src/renderer/renderer.rs:21-37 | The body is the items rendered macros first, each group in its original order. Items already macros first, with no macros or with only macros, render as they stand. |
| CrateRenderer.TopLevelIndented | src/renderer/renderer.rs:27-37 | Every body line is blank or starts with two spaces. |

## Left out

- Reading files, running `cargo rustdoc`, the command line and writing the output (`src/main.rs`) are I/O and are not modelled. The model starts from a decoded `Crate` and ends with the output text.
- serde: a decoded rustdoc crate is taken as given. `serde_json::to_value` of rustdoc's own records cannot fail there, so the `?` on it is dropped. In `parse_module`, a failing `from_value` gives no items. Its input is always a `Module`, so the model reads the module's item list directly.
- `Id(n as u32)`: ids are unbounded naturals, so the 32-bit truncation of a larger JSON number is not modelled. rustdoc ids fit.
- Termination: `CrateOf`, `ItemOf` and `ModuleOf` require a ranked module tree (`Ranked`). A rustdoc index whose modules contain themselves would make the original recurse without end, and it is outside the model.
- ItemParser.MacroOf: requires `MacroSliceable` of a named macro only. A named macro whose first `)` comes before its first `(` makes the source's slice panic, and the model excludes it rather than modelling the panic. A nameless macro fails with `Macro missing name` before any slicing, whatever its text.
- Macro parameters run from the first `(` to the first `)`, as the source computes them, not to the matching parenthesis.
- ItemParser.MacroOf: the matcher text is copied unchanged, as in the source, so a matcher that spans several lines gives a signature element holding newlines. The lines after the first newline are then written without the context's indentation. The `Indented` lemmas state indentation per element of the line list, not per written line, so they say nothing about those lines.
- TypeResolver.ParseType: its array size is the corrected text, the `len` string without quotes, and so are every parsed and rendered array type built on it. The program writes the length with its JSON quotes, as TypeResolver.ArrayLenAsWritten models (see "## Findings").
- `is_async` is parsed but never rendered, and struct fields are parsed but never rendered. Both are kept in the data model and absent from the lines.
- Trait impls are not deduplicated, and the impls of enums are never parsed. This follows the code.
- A root item that is not a module gives a crate with no items.
- A module's items are not reordered macros first; only the crate's top level is.
- `ReExport` renders as nothing, and the parser never produces it.
- `render_type` is `Types.Display` itself. `indent_from_context` is `RenderContext.Indent` itself, so neither has a member of its own.
- `with_depth` borrowing its receiver unchanged follows from `RenderContext` being an immutable datatype.
- The `unknown` fallback of `parse_trait_impl` for a trait without a path is not modelled. rustdoc's `Path` always carries its path, so `traitPath` is the trait's path when the impl has a trait and `None` otherwise.
- RenderExamples.EmptyTraitImplRender: states the generated doc line only by its `  ///` start. The full doc line is stated as a term in RenderExamples.HttpErrorImplLines. The proof does not work the long line out as a single literal.
- RenderExamples.DeprecatedMethodRender: states only the first and last lines of the render, the two the test checks. The whole signature line is not worked out as a literal, for the same proof limitation.
- RenderExamples: the `Storage` generics test (src/tests/mod.rs:509-554) is not stated. Its expected line is a long literal, and the proof does not work it out.

## Findings

| source | as written | input that shows it | evidently intended | confidence | as-written member | corrected member |
|---|---|---|---|---|---|---|
| src/parser/parser.rs:264-267 | rustdoc writes an array length as a JSON string, and `l.to_string()` writes that string with its quotes | `{"array": {"type": {"primitive": "u8"}, "len": "4"}}` renders as `[u8; "4"]` | `[u8; 4]`, the length text without quotes | not executed | TypeResolver.ArrayLenAsWrittenQuotes | TypeResolver.ArrayDisplaysLen |
