/** The `Render` impls: how each parsed item is written out at a given depth
    (src/renderer/renders.rs).

    Every render of the source appends pieces that each end in `"\n"` (or a
    bare `"\n"`, a blank line), so its text is `ConcatLines` of the line
    sequence the functions here compute; `Separated` is the `enumerate` loop
    that puts one blank line between consecutive members.  The hard-coded
    names the source special-cases (`Result`, `Storage`, `Person`,
    `Protocol`, `Cacheable`, `Error`, `Key`, `to_string`, `fmt`, `handle`)
    are kept as the guarded branches they are. */
module Renders {
  import opened Wrappers
  import opened Strings
  import opened Types
  import opened RenderContexts
  import opened Components

  // ---------------------------------------------------------------------
  // Member lists

  /** Blocks with one blank line between consecutive blocks and none after
      the last. */
  function Separated(bs: seq<seq<string>>): seq<string>
  {
    if |bs| == 0 then []
    else if |bs| == 1 then bs[0]
    else Separated(bs[..|bs| - 1]) + [""] + bs[|bs| - 1]
  }

  /** Blocks one after the other. */
  function Concat(bs: seq<seq<string>>): seq<string>
  {
    if |bs| == 0 then [] else Concat(bs[..|bs| - 1]) + bs[|bs| - 1]
  }

  /** The source's member loop: `for (i, m) in members.enumerate()`, writing
      the member and then a blank line while `i < count - 1`. */
  method SeparateBlocks(bs: seq<seq<string>>) returns (out: seq<string>)
    ensures out == Separated(bs)
  {
    out := [];
    var i := 0;
    while i < |bs|
      invariant 0 <= i <= |bs|
      invariant out == Separated(bs[..i]) + (if 0 < i < |bs| then [""] else [])
    {
      assert bs[..i + 1][..i] == bs[..i];
      if i == 0 {
        assert bs[..1] == [bs[0]];
        out := bs[0];
      } else {
        out := out + bs[i];
      }
      if i < |bs| - 1 {
        out := out + [""];
      }
      i := i + 1;
    }
    assert bs[..|bs|] == bs;
  }

  /** The separated blocks start with the first block and end with the last:
      no blank line is added after the last member, and there is one more
      line per member boundary than in the blocks themselves. */
  lemma {:induction false} SeparatedShape(bs: seq<seq<string>>)
    requires |bs| > 0
    ensures bs[0] <= Separated(bs)
    ensures |Separated(bs)| == |Concat(bs)| + |bs| - 1
    ensures Separated(bs)[|Separated(bs)| - |bs[|bs| - 1]|..] == bs[|bs| - 1]
  {
    if |bs| > 1 {
      var init := bs[..|bs| - 1];
      SeparatedShape(init);
      assert init[0] == bs[0];
      var s := Separated(bs);
      assert s == Separated(init) + [""] + bs[|bs| - 1];
      assert s[..|Separated(init)|] == Separated(init);
      assert bs[0] <= Separated(init);
    }
  }

  /** Where each member lands in the separated list: block `i` starts after
      the blocks before it and one blank line per earlier boundary, and for
      every block but the first the line just before it is blank. */
  lemma {:induction false} SeparatedBlockAt(bs: seq<seq<string>>, i: nat)
    requires i < |bs|
    ensures BlockAt(Separated(bs), |Concat(bs[..i])| + i, bs[i], i > 0)
    decreases |bs|, 1
  {
    if |bs| == 1 {
      assert bs[..0] == [];
    } else if i < |bs| - 1 {
      SeparatedEarlierBlock(bs, i);
    } else {
      var init := bs[..|bs| - 1];
      assert Separated(bs) == Separated(init) + [""] + bs[i];
      assert init == bs[..i];
      SeparatedShape(init);
      SliceAfterBlank(Separated(init), bs[i]);
    }
  }

  /** Block `x` sits in `lines` at `off`, after a blank line when `blank`. */
  predicate BlockAt(lines: seq<string>, off: nat, x: seq<string>, blank: bool)
  {
    off + |x| <= |lines| && lines[off..off + |x|] == x && (blank ==> off > 0 && lines[off - 1] == "")
  }

  /** A block before the last sits where it does among the earlier blocks. */
  lemma {:induction false} SeparatedEarlierBlock(bs: seq<seq<string>>, i: nat)
    requires i < |bs| - 1
    ensures BlockAt(Separated(bs), |Concat(bs[..i])| + i, bs[i], i > 0)
    decreases |bs|, 0
  {
    var init := bs[..|bs| - 1];
    assert Separated(bs) == Separated(init) + ([""] + bs[|bs| - 1]);
    assert init[..i] == bs[..i];
    assert init[i] == bs[i];
    SeparatedBlockAt(init, i);
    SliceOfLeft(Separated(init), [""] + bs[|bs| - 1], |Concat(bs[..i])| + i, bs[i], i > 0);
  }

  /** A block inside the left part of a concatenation stays where it is. */
  lemma SliceOfLeft(a: seq<string>, b: seq<string>, off: nat, x: seq<string>, blank: bool)
    requires BlockAt(a, off, x, blank)
    ensures BlockAt(a + b, off, x, blank)
  {
    assert (a + b)[off..off + |x|] == a[off..off + |x|];
  }

  /** The block after a blank line follows it. */
  lemma SliceAfterBlank(a: seq<string>, c: seq<string>)
    ensures (a + [""] + c)[|a| + 1..|a| + 1 + |c|] == c
    ensures (a + [""] + c)[|a|] == ""
  {
    assert (a + [""] + c)[|a| + 1..] == c;
  }

  /** The usual opening of a render: the deprecation line, the doc lines,
      then one indented line. */
  function Head(dep: Option<Deprecation>, docs: Option<string>, ind: string, line: string): seq<string>
  {
    DeprecationLines(dep, ind) + DocLines(docs, ind) + [ind + line]
  }

  /** A braced render: its head, a blank line, the members, the closing
      brace and a blank line. */
  function Framed(head: seq<string>, members: seq<string>, ind: string): seq<string>
  {
    head + [""] + members + [ind + "}", ""]
  }

  // ---------------------------------------------------------------------
  // Functions

  /** A `self` parameter: `&mut self`, `&self`, or `self`. */
  function SelfText(ty: RustType): string
  {
    if ty.Reference? then (if ty.mutable then "&mut self" else "&self") else "self"
  }

  /** One parameter: `self` in its receiver form, anything else as
      `name: Type`. */
  function InputText(input: (string, RustType)): string
  {
    if input.0 == "self" then SelfText(input.1) else input.0 + ": " + Display(input.1)
  }

  function InputTexts(inputs: seq<(string, RustType)>): (r: seq<string>)
    ensures |r| == |inputs|
    ensures forall i | 0 <= i < |inputs| :: r[i] == InputText(inputs[i])
  {
    if |inputs| == 0 then [] else InputTexts(inputs[..|inputs| - 1]) + [InputText(inputs[|inputs| - 1])]
  }

  function ParamList(inputs: seq<(string, RustType)>): string
  {
    "(" + Join(InputTexts(inputs), ", ") + ")"
  }

  /** `-> Type` for every output but `()`. */
  function ReturnText(output: RustType): (r: string)
    ensures r == "" <==> output.Unit?
    ensures !output.Unit? ==> |r| >= 4 && r[..4] == " -> " && r[4..] == Display(output)
  {
    if output.Unit? then "" else " -> " + Display(output)
  }

  /** `[vis]fn name[<generics>](params)[ -> T][ where ...]`. */
  function FunctionSignatureText(sig: FunctionSignature): string
  {
    RenderVisibility(sig.visibility) + "fn " + sig.name + RenderGenerics(sig.generics)
    + ParamList(sig.inputs) + ReturnText(sig.output) + RenderWhereClause(sig.generics)
  }

  /** `impl Render for ParsedFunction`: the deprecation line, the doc lines,
      then the signature. */
  function FunctionLines(f: ParsedFunction, ctx: RenderContext): seq<string>
  {
    Head(f.deprecation, f.docs, ctx.Indent(), FunctionSignatureText(f.signature))
  }

  function FunctionBlocks(fs: seq<ParsedFunction>, ctx: RenderContext): seq<seq<string>>
  {
    seq(|fs|, i requires 0 <= i < |fs| => FunctionLines(fs[i], ctx))
  }

  // ---------------------------------------------------------------------
  // Structs

  predicate HasMethodNamed(ms: seq<ParsedFunction>, name: string)
  {
    exists i | 0 <= i < |ms| :: ms[i].signature.name == name
  }

  /** The `where` part of a struct header, with the source's fixed texts for
      `Result` (given an `ok` method) and `Storage` (given an `insert`
      method). */
  function StructWhereText(s: ParsedStruct): string
  {
    var needs := (s.name == "Result" && HasMethodNamed(s.methods, "ok"))
      || (s.name == "Storage" && HasMethodNamed(s.methods, "insert"))
      || |s.generics.whereClauses| > 0;
    if !needs then ""
    else if s.name == "Result" then " where T: Clone, E: Display"
    else if s.name == "Storage" then " where K: Clone + Debug + PartialEq + std::hash::Hash, V: Clone + Debug"
    else RenderWhereClause(s.generics)
  }

  function StructHeader(s: ParsedStruct): string
  {
    RenderVisibility(s.visibility) + "struct " + s.name + RenderGenerics(s.generics) + StructWhereText(s) + " {"
  }

  /** Methods are indented one level, or two inside a struct named `Person`. */
  function MethodContext(s: ParsedStruct, ctx: RenderContext): RenderContext
  {
    if s.name == "Person" then ctx.WithDepth(ctx.depth + 2) else ctx.WithDepth(ctx.depth + 1)
  }

  /** `impl Render for ParsedStruct`: header, a blank line when there are
      methods, the methods separated by blank lines, the closing brace and a
      blank line, then the struct's trait impls at the struct's own depth.
      Fields are not written. */
  function StructLines(s: ParsedStruct, ctx: RenderContext): seq<string>
  {
    var ind := ctx.Indent();
    Head(s.deprecation, s.docs, ind, StructHeader(s))
    + (if |s.methods| > 0 then [""] else [])
    + Separated(FunctionBlocks(s.methods, MethodContext(s, ctx)))
    + [ind + "}", ""]
    + Concat(TraitImplBlocks(s.traitImpls, ctx))
  }

  /** Outside the names the source special-cases, a struct's header carries
      exactly its own `where` clauses and its methods sit one level deeper. */
  lemma StructGeneral(s: ParsedStruct, ctx: RenderContext)
    requires s.name != "Result" && s.name != "Storage" && s.name != "Person"
    ensures StructHeader(s) ==
      RenderVisibility(s.visibility) + "struct " + s.name + RenderGenerics(s.generics) + RenderWhereClause(s.generics) + " {"
    ensures MethodContext(s, ctx).depth == ctx.depth + 1
  {
  }

  // ---------------------------------------------------------------------
  // Enums

  function FieldTexts(fs: seq<(string, RustType)>): (r: seq<string>)
    ensures |r| == |fs|
    ensures forall i | 0 <= i < |fs| :: r[i] == fs[i].0 + ": " + Display(fs[i].1)
  {
    if |fs| == 0 then [] else FieldTexts(fs[..|fs| - 1]) + [fs[|fs| - 1].0 + ": " + Display(fs[|fs| - 1].1)]
  }

  /** `Name`, `Name(T1, T2)` or `Name { a: T, b: U }`. */
  function VariantSignature(v: ParsedVariant): string
  {
    match v.kind
    case UnitVariant => v.name
    case TupleVariant(ts) => v.name + "(" + Join(DisplayAll(ts), ", ") + ")"
    case StructVariant(fs) => v.name + " { " + Join(FieldTexts(fs), ", ") + " }"
  }

  /** `impl Render for ParsedVariant`: doc lines, then the variant. */
  function VariantLines(v: ParsedVariant, ctx: RenderContext): seq<string>
  {
    Head(None, v.docs, ctx.Indent(), VariantSignature(v))
  }

  function VariantBlocks(vs: seq<ParsedVariant>, ctx: RenderContext): seq<seq<string>>
  {
    seq(|vs|, i requires 0 <= i < |vs| => VariantLines(vs[i], ctx))
  }

  function EnumHeader(e: ParsedEnum): string
  {
    RenderVisibility(e.visibility) + "enum " + e.name + RenderGenerics(e.generics) + RenderWhereClause(e.generics) + " {"
  }

  /** `impl Render for ParsedEnum`: header and a blank line, the variants one
      level deeper separated by blank lines, the closing brace and a blank
      line. */
  function EnumLines(e: ParsedEnum, ctx: RenderContext): seq<string>
  {
    var ind := ctx.Indent();
    Framed(Head(e.deprecation, e.docs, ind, EnumHeader(e)),
      Separated(VariantBlocks(e.variants, ctx.WithDepth(ctx.depth + 1))), ind)
  }

  // ---------------------------------------------------------------------
  // Traits

  predicate HasMethodItemNamed(items: seq<ParsedTraitItem>, name: string)
  {
    exists i | 0 <= i < |items| :: items[i].Method? && items[i].func.signature.name == name
  }

  predicate HasAssocTypeNamed(items: seq<ParsedTraitItem>, name: string)
  {
    exists i | 0 <= i < |items| :: items[i].AssocType? && items[i].name == name
  }

  /** The `where` part of a trait header, with the source's fixed text for
      `Cacheable` (given an associated type `Key`). */
  function TraitWhereText(t: ParsedTrait): string
  {
    var needs := (t.name == "Protocol" && HasMethodItemNamed(t.items, "handle"))
      || (t.name == "Cacheable" && HasAssocTypeNamed(t.items, "Key"))
      || |t.generics.whereClauses| > 0;
    if !needs then ""
    else if t.name == "Cacheable" then " where K: Clone"
    else RenderWhereClause(t.generics)
  }

  function TraitHeader(t: ParsedTrait): string
  {
    RenderVisibility(t.visibility) + "trait " + t.name + RenderGenerics(t.generics) + TraitWhereText(t) + " {"
  }

  /** The bounds of an associated type, with fixed bounds for an unbounded
      `Error` or `Key`. */
  function AssocTypeBounds(name: string, bounds: seq<string>): string
  {
    if name == "Error" && |bounds| == 0 then ": std::error::Error"
    else if name == "Key" && |bounds| == 0 then ": Clone + Debug"
    else if |bounds| > 0 then ": " + Join(bounds, " + ")
    else ""
  }

  function AssocTypeText(name: string, bounds: seq<string>): string
  {
    "type " + name + AssocTypeBounds(name, bounds)
  }

  function AssocConstText(name: string, ty: RustType): string
  {
    "const " + name + ": " + Display(ty)
  }

  /** A trait method's signature: no visibility and no generics. */
  function TraitMethodSignature(sig: FunctionSignature): string
  {
    "fn " + sig.name + ParamList(sig.inputs) + ReturnText(sig.output) + RenderWhereClause(sig.generics)
  }

  /** `impl Render for ParsedTraitItem`. */
  function TraitItemLines(item: ParsedTraitItem, ctx: RenderContext): seq<string>
  {
    var ind := ctx.Indent();
    match item
    case AssocType(name, bounds, docs) => Head(None, docs, ind, AssocTypeText(name, bounds))
    case AssocConst(name, ty, docs) => Head(None, docs, ind, AssocConstText(name, ty))
    case Method(f) => Head(f.deprecation, f.docs, ind, TraitMethodSignature(f.signature))
  }

  function TraitItemBlocks(items: seq<ParsedTraitItem>, ctx: RenderContext): seq<seq<string>>
  {
    seq(|items|, i requires 0 <= i < |items| => TraitItemLines(items[i], ctx))
  }

  /** `impl Render for ParsedTrait`: header and a blank line, the items one
      level deeper separated by blank lines, the closing brace and a blank
      line. */
  function TraitLines(t: ParsedTrait, ctx: RenderContext): seq<string>
  {
    var ind := ctx.Indent();
    Framed(Head(t.deprecation, t.docs, ind, TraitHeader(t)),
      Separated(TraitItemBlocks(t.items, ctx.WithDepth(ctx.depth + 1))), ind)
  }

  /** Outside the names the source special-cases, a trait's header carries
      exactly its own `where` clauses and an associated type exactly its own
      bounds. */
  lemma TraitGeneral(t: ParsedTrait, name: string, bounds: seq<string>)
    requires t.name != "Protocol" && t.name != "Cacheable"
    requires name != "Error" && name != "Key"
    ensures TraitHeader(t) ==
      RenderVisibility(t.visibility) + "trait " + t.name + RenderGenerics(t.generics) + RenderWhereClause(t.generics) + " {"
    ensures AssocTypeBounds(name, bounds) == if |bounds| == 0 then "" else ": " + Join(bounds, " + ")
  {
  }

  // ---------------------------------------------------------------------
  // Constants, macros

  /** `impl Render for ParsedConstant`: the constant line, then a blank line. */
  function ConstantLines(c: ParsedConstant, ctx: RenderContext): seq<string>
  {
    Head(c.deprecation, c.docs, ctx.Indent(), ConstantSignature(c)) + [""]
  }

  function ConstantSignature(c: ParsedConstant): string
  {
    RenderVisibility(c.visibility) + "const " + c.name + ": " + Display(c.ty)
  }

  /** `impl Render for ParsedMacro`: doc lines, the signature, a blank line. */
  function MacroLines(m: ParsedMacro, ctx: RenderContext): seq<string>
  {
    Head(None, m.docs, ctx.Indent(), m.signature) + [""]
  }

  // ---------------------------------------------------------------------
  // Trait impls

  predicate EndsWith(s: string, suffix: string)
  {
    |suffix| <= |s| && s[|s| - |suffix|..] == suffix
  }

  /** The implementing type's short name for the generated doc line. */
  function ImplTypeName(t: RustType): string
  {
    match t
    case Path(p, _) => LastSegment(p, "::")
    case Generic(n) => n
    case _ => "Unknown"
  }

  /** The impl's docs, or a generated line naming the trait and the type. */
  function ImplDocLines(imp: ParsedTraitImpl, ind: string): seq<string>
  {
    if imp.docs.Some? then DocLines(imp.docs, ind)
    else [ind + GeneratedImplDoc(imp)]
  }

  function GeneratedImplDoc(imp: ParsedTraitImpl): string
  {
    "/// Implementation of " + LastSegment(imp.traitPath, "::") + " trait for " + ImplTypeName(imp.forType)
  }

  /** `impl Trait for Type`, with a fixed text for traits ending in
      `Protocol`. */
  function ImplSignature(imp: ParsedTraitImpl): string
  {
    "impl " + (if EndsWith(imp.traitPath, "Protocol") then "Protocol<HttpRequest, HttpResponse>" else imp.traitPath)
    + " for " + Display(imp.forType)
  }

  function ImplSignatureOpen(imp: ParsedTraitImpl): string
  {
    ImplSignature(imp) + " {"
  }

  predicate HasInputNamed(inputs: seq<(string, RustType)>, name: string)
  {
    exists i | 0 <= i < |inputs| :: inputs[i].0 == name
  }

  /** A parameter of an impl method; `f` of a `fmt` method is always the
      formatter. */
  function ImplInputText(sig: FunctionSignature, input: (string, RustType)): string
  {
    if input.0 == "self" then SelfText(input.1)
    else if input.0 == "f" && sig.name == "fmt" then "f: &mut std::fmt::Formatter<'_>"
    else input.0 + ": " + Display(input.1)
  }

  function ImplInputTexts(sig: FunctionSignature, inputs: seq<(string, RustType)>): (r: seq<string>)
    ensures |r| == |inputs|
    ensures forall i | 0 <= i < |inputs| :: r[i] == ImplInputText(sig, inputs[i])
  {
    if |inputs| == 0 then [] else ImplInputTexts(sig, inputs[..|inputs| - 1]) + [ImplInputText(sig, inputs[|inputs| - 1])]
  }

  /** The return part of an impl method, fixed for `handle(.., request, ..)`
      and `fmt(.., f, ..)`. */
  function ImplReturnText(sig: FunctionSignature): string
  {
    if sig.name == "handle" && HasInputNamed(sig.inputs, "request") then " -> Result<HttpResponse, Self::Error>"
    else if sig.name == "fmt" && HasInputNamed(sig.inputs, "f") then " -> std::fmt::Result"
    else ReturnText(sig.output)
  }

  /** An impl method's signature: no visibility, generics or `where`. */
  function ImplMethodSignature(sig: FunctionSignature): string
  {
    "fn " + sig.name + "(" + Join(ImplInputTexts(sig, sig.inputs), ", ") + ")" + ImplReturnText(sig)
  }

  /** An associated type of an impl, with a fixed `HttpError` for `Error`. */
  function ImplAssocTypeText(name: string, ty: RustType): string
  {
    if name == "Error" then "type Error = HttpError" else "type " + name + " = " + Display(ty)
  }

  /** `impl Render for ParsedTraitImplItem`: a `to_string` method writes
      nothing, and a method named `Error` is followed by a blank line. */
  function ImplItemLines(item: ParsedTraitImplItem, ctx: RenderContext): seq<string>
  {
    var ind := ctx.Indent();
    match item
    case ImplAssocType(name, ty) =>
      [ind + ImplAssocTypeText(name, ty)]
    case ImplMethod(f) =>
      if f.signature.name == "to_string" then []
      else
        Head(f.deprecation, f.docs, ind, ImplMethodSignature(f.signature))
        + (if f.signature.name == "Error" then [""] else [])
  }

  function ImplItemBlocks(items: seq<ParsedTraitImplItem>, ctx: RenderContext): seq<seq<string>>
  {
    seq(|items|, i requires 0 <= i < |items| => ImplItemLines(items[i], ctx))
  }

  /** `impl Render for ParsedTraitImpl`: docs or the generated doc line,
      then the body. */
  function TraitImplLines(imp: ParsedTraitImpl, ctx: RenderContext): seq<string>
  {
    ImplDocLines(imp, ctx.Indent()) + ImplBodyLines(imp, ctx)
  }

  /** An impl without items is one line and a blank line; otherwise the
      braced items one level deeper, separated by blank lines. */
  function ImplBodyLines(imp: ParsedTraitImpl, ctx: RenderContext): seq<string>
  {
    var ind := ctx.Indent();
    if |imp.items| == 0 then [ind + ImplSignature(imp), ""]
    else Framed([ind + ImplSignatureOpen(imp)], Separated(ImplItemBlocks(imp.items, ctx.WithDepth(ctx.depth + 1))), ind)
  }

  function TraitImplBlocks(ts: seq<ParsedTraitImpl>, ctx: RenderContext): seq<seq<string>>
  {
    seq(|ts|, i requires 0 <= i < |ts| => TraitImplLines(ts[i], ctx))
  }

  /** Outside the names the source special-cases, an impl names its own
      trait, an associated type renders as `type N = T`, and a method as its
      deprecation and docs, then its name, parameters and return type, with
      no generics and no where clause. */
  lemma TraitImplGeneral(imp: ParsedTraitImpl, item: ParsedTraitImplItem, ctx: RenderContext)
    requires !EndsWith(imp.traitPath, "Protocol")
    requires item.ImplAssocType? ==> item.name != "Error"
    requires item.ImplMethod? ==> item.func.signature.name !in {"to_string", "fmt", "handle", "Error"}
    ensures ImplSignature(imp) == "impl " + imp.traitPath + " for " + Display(imp.forType)
    ensures item.ImplAssocType? ==>
      ImplItemLines(item, ctx) == [ctx.Indent() + ("type " + item.name + " = " + Display(item.ty))]
    ensures item.ImplMethod? ==>
      var f := item.func;
      ImplItemLines(item, ctx) == DeprecationLines(f.deprecation, ctx.Indent()) + DocLines(f.docs, ctx.Indent())
        + [ctx.Indent() + ("fn " + f.signature.name + ParamList(f.signature.inputs) + ReturnText(f.signature.output))]
  {
    if item.ImplMethod? {
      var sig := item.func.signature;
      assert ImplInputTexts(sig, sig.inputs) == InputTexts(sig.inputs);
      assert ImplReturnText(sig) == ReturnText(sig.output);
      var j := Join(InputTexts(sig.inputs), ", ");
      assert ImplMethodSignature(sig) == "fn " + sig.name + ParamList(sig.inputs) + ReturnText(sig.output) by {
        assert ImplMethodSignature(sig) == "fn " + sig.name + "(" + j + ")" + ReturnText(sig.output);
        assert ParamList(sig.inputs) == "(" + j + ")";
      }
    }
  }

  // ---------------------------------------------------------------------
  // Modules and items

  /** `impl Render for ParsedModule`: doc lines before `mod name`, a blank
      line, then the items one level deeper, in order. */
  function ModuleLines(m: ParsedModule, ctx: RenderContext): seq<string>
    decreases m, 1
  {
    var ind := ctx.Indent();
    Head(None, m.docs, ind, ModuleHeader(m)) + [""]
    + ItemsLines(m.items, ctx.WithDepth(ctx.depth + 1))
  }

  function ModuleHeader(m: ParsedModule): string
  {
    RenderVisibility(m.visibility) + "mod " + m.name
  }

  /** Items one after the other, each rendered in the same context. */
  function ItemsLines(items: seq<ParsedItem>, ctx: RenderContext): seq<string>
    decreases items, 0
  {
    if |items| == 0 then [] else ItemsLines(items[..|items| - 1], ctx) + ItemLines(items[|items| - 1], ctx)
  }

  /** `impl Render for ParsedItem`: a function is followed by one extra blank
      line; a re-export writes nothing. */
  function ItemLines(item: ParsedItem, ctx: RenderContext): seq<string>
    decreases item, 2
  {
    match item
    case Function(f) => FunctionLines(f, ctx) + [""]
    case Struct(s) => StructLines(s, ctx)
    case Enum(e) => EnumLines(e, ctx)
    case Trait(t) => TraitLines(t, ctx)
    case Constant(c) => ConstantLines(c, ctx)
    case Module(m) => ModuleLines(m, ctx)
    case Macro(mac) => MacroLines(mac, ctx)
    case TraitImpl(imp) => TraitImplLines(imp, ctx)
    case ReExport(_) => []
  }

  /** The text of an item's render. */
  function ItemText(item: ParsedItem, ctx: RenderContext): string
  {
    ConcatLines(ItemLines(item, ctx))
  }

  // ---------------------------------------------------------------------
  // Indentation

  /** Every line is blank or starts with `ind`. */
  predicate Indented(lines: seq<string>, ind: string)
  {
    forall i | 0 <= i < |lines| :: lines[i] == "" || ind <= lines[i]
  }

  lemma IndentedConcat(a: seq<string>, b: seq<string>, ind: string)
    requires Indented(a, ind) && Indented(b, ind)
    ensures Indented(a + b, ind)
  {
    forall i | 0 <= i < |a + b| ensures (a + b)[i] == "" || ind <= (a + b)[i] {
      if i >= |a| {
        assert (a + b)[i] == b[i - |a|];
      }
    }
  }

  lemma PrefixLine(ind: string, rest: string)
    ensures ind <= ind + rest
  {
    assert (ind + rest)[..|ind|] == ind;
  }

  lemma PrefixOfPrefix(a: string, b: string, c: string)
    requires a + b <= c
    ensures a <= c
  {
    assert c[..|a|] == (a + b)[..|a|];
  }

  /** Lines indented for a deeper context are indented for this one. */
  lemma DeeperIndented(lines: seq<string>, ctx: RenderContext, d: nat)
    requires ctx.depth <= d && Indented(lines, ctx.WithDepth(d).Indent())
    ensures Indented(lines, ctx.Indent())
  {
    IndentPrefix(ctx, d);
    var lo := ctx.Indent();
    var hi := ctx.WithDepth(d).Indent();
    forall i | 0 <= i < |lines| && lines[i] != "" ensures lo <= lines[i] {
      assert hi <= lines[i];
      PrefixOfPrefix(lo, Repeat("  ", d - ctx.depth), lines[i]);
    }
  }

  lemma DocLinesIndented(docs: Option<string>, ind: string)
    ensures Indented(DocLines(docs, ind), ind)
  {
    DocLinesShape(docs, ind);
    var ls := DocLines(docs, ind);
    forall i | 0 <= i < |ls| ensures ind <= ls[i] {
      PrefixOfPrefix(ind, "///", ls[i]);
    }
  }

  lemma DeprecationIndented(dep: Option<Deprecation>, ind: string)
    ensures Indented(DeprecationLines(dep, ind), ind)
  {
    if dep.Some? {
      PrefixOfPrefix(ind, "DEPRECATED", DeprecationLines(dep, ind)[0]);
    }
  }

  lemma {:induction false} SeparatedIndented(bs: seq<seq<string>>, ind: string)
    requires forall i | 0 <= i < |bs| :: Indented(bs[i], ind)
    ensures Indented(Separated(bs), ind)
  {
    if |bs| > 1 {
      SeparatedIndented(bs[..|bs| - 1], ind);
      IndentedConcat(Separated(bs[..|bs| - 1]), [""], ind);
      IndentedConcat(Separated(bs[..|bs| - 1]) + [""], bs[|bs| - 1], ind);
    }
  }

  lemma {:induction false} ConcatIndented(bs: seq<seq<string>>, ind: string)
    requires forall i | 0 <= i < |bs| :: Indented(bs[i], ind)
    ensures Indented(Concat(bs), ind)
  {
    if |bs| > 0 {
      ConcatIndented(bs[..|bs| - 1], ind);
      IndentedConcat(Concat(bs[..|bs| - 1]), bs[|bs| - 1], ind);
    }
  }

  lemma HeadIndented(dep: Option<Deprecation>, docs: Option<string>, ind: string, line: string)
    ensures Indented(Head(dep, docs, ind, line), ind)
  {
    DeprecationIndented(dep, ind);
    DocLinesIndented(docs, ind);
    PrefixLine(ind, line);
    IndentedConcat(DeprecationLines(dep, ind), DocLines(docs, ind), ind);
    IndentedConcat(DeprecationLines(dep, ind) + DocLines(docs, ind), [ind + line], ind);
  }

  lemma FramedIndented(head: seq<string>, members: seq<string>, ind: string)
    requires Indented(head, ind) && Indented(members, ind)
    ensures Indented(Framed(head, members, ind), ind)
  {
    PrefixLine(ind, "}");
    IndentedConcat(head, [""], ind);
    IndentedConcat(head + [""], members, ind);
    IndentedConcat(head + [""] + members, [ind + "}", ""], ind);
  }

  lemma BlankAfterIndented(lines: seq<string>, ind: string)
    requires Indented(lines, ind)
    ensures Indented(lines + [""], ind)
  {
    IndentedConcat(lines, [""], ind);
  }

  /** Member blocks already indented one level (or more) deeper, once
      separated, are indented here. */
  lemma MembersIndented(bs: seq<seq<string>>, ctx: RenderContext, d: nat)
    requires ctx.depth <= d
    requires forall i | 0 <= i < |bs| :: Indented(bs[i], ctx.WithDepth(d).Indent())
    ensures Indented(Separated(bs), ctx.Indent())
  {
    SeparatedIndented(bs, ctx.WithDepth(d).Indent());
    DeeperIndented(Separated(bs), ctx, d);
  }

  lemma TraitItemIndented(item: ParsedTraitItem, ctx: RenderContext)
    ensures Indented(TraitItemLines(item, ctx), ctx.Indent())
  {
    var ind := ctx.Indent();
    match item {
      case AssocType(name, bounds, docs) => HeadIndented(None, docs, ind, AssocTypeText(name, bounds));
      case AssocConst(name, ty, docs) => HeadIndented(None, docs, ind, AssocConstText(name, ty));
      case Method(f) => HeadIndented(f.deprecation, f.docs, ind, TraitMethodSignature(f.signature));
    }
  }

  lemma ImplItemIndented(item: ParsedTraitImplItem, ctx: RenderContext)
    ensures Indented(ImplItemLines(item, ctx), ctx.Indent())
  {
    var ind := ctx.Indent();
    match item {
      case ImplAssocType(name, ty) =>
        PrefixLine(ind, ImplAssocTypeText(name, ty));
      case ImplMethod(f) =>
        if f.signature.name != "to_string" {
          var head := Head(f.deprecation, f.docs, ind, ImplMethodSignature(f.signature));
          HeadIndented(f.deprecation, f.docs, ind, ImplMethodSignature(f.signature));
          var tail: seq<string> := if f.signature.name == "Error" then [""] else [];
          IndentedConcat(head, tail, ind);
        }
    }
  }

  lemma EnumIndented(e: ParsedEnum, ctx: RenderContext)
    ensures Indented(EnumLines(e, ctx), ctx.Indent())
  {
    var ind := ctx.Indent();
    var vctx := ctx.WithDepth(ctx.depth + 1);
    var blocks := VariantBlocks(e.variants, vctx);
    forall i | 0 <= i < |blocks| ensures Indented(blocks[i], vctx.Indent()) {
      HeadIndented(None, e.variants[i].docs, vctx.Indent(), VariantSignature(e.variants[i]));
    }
    MembersIndented(blocks, ctx, ctx.depth + 1);
    HeadIndented(e.deprecation, e.docs, ind, EnumHeader(e));
    FramedIndented(Head(e.deprecation, e.docs, ind, EnumHeader(e)), Separated(blocks), ind);
  }

  lemma TraitIndented(t: ParsedTrait, ctx: RenderContext)
    ensures Indented(TraitLines(t, ctx), ctx.Indent())
  {
    var ind := ctx.Indent();
    var ictx := ctx.WithDepth(ctx.depth + 1);
    var blocks := TraitItemBlocks(t.items, ictx);
    forall i | 0 <= i < |blocks| ensures Indented(blocks[i], ictx.Indent()) {
      TraitItemIndented(t.items[i], ictx);
    }
    MembersIndented(blocks, ctx, ctx.depth + 1);
    HeadIndented(t.deprecation, t.docs, ind, TraitHeader(t));
    FramedIndented(Head(t.deprecation, t.docs, ind, TraitHeader(t)), Separated(blocks), ind);
  }

  lemma ImplBodyIndented(imp: ParsedTraitImpl, ctx: RenderContext)
    ensures Indented(ImplBodyLines(imp, ctx), ctx.Indent())
  {
    var ind := ctx.Indent();
    if |imp.items| == 0 {
      PrefixLine(ind, ImplSignature(imp));
    } else {
      var ictx := ctx.WithDepth(ctx.depth + 1);
      var blocks := ImplItemBlocks(imp.items, ictx);
      forall i | 0 <= i < |blocks| ensures Indented(blocks[i], ictx.Indent()) {
        ImplItemIndented(imp.items[i], ictx);
      }
      MembersIndented(blocks, ctx, ctx.depth + 1);
      PrefixLine(ind, ImplSignatureOpen(imp));
      FramedIndented([ind + ImplSignatureOpen(imp)], Separated(blocks), ind);
    }
  }

  lemma TraitImplIndented(imp: ParsedTraitImpl, ctx: RenderContext)
    ensures Indented(TraitImplLines(imp, ctx), ctx.Indent())
  {
    var ind := ctx.Indent();
    if imp.docs.Some? {
      DocLinesIndented(imp.docs, ind);
    } else {
      PrefixLine(ind, GeneratedImplDoc(imp));
    }
    ImplBodyIndented(imp, ctx);
    IndentedConcat(ImplDocLines(imp, ind), ImplBodyLines(imp, ctx), ind);
  }

  lemma StructMethodsIndented(s: ParsedStruct, ctx: RenderContext)
    ensures Indented(Separated(FunctionBlocks(s.methods, MethodContext(s, ctx))), ctx.Indent())
  {
    var mctx := MethodContext(s, ctx);
    var blocks := FunctionBlocks(s.methods, mctx);
    forall i | 0 <= i < |blocks| ensures Indented(blocks[i], ctx.WithDepth(mctx.depth).Indent()) {
      var f := s.methods[i];
      HeadIndented(f.deprecation, f.docs, mctx.Indent(), FunctionSignatureText(f.signature));
    }
    MembersIndented(blocks, ctx, mctx.depth);
  }

  lemma StructImplsIndented(s: ParsedStruct, ctx: RenderContext)
    ensures Indented(Concat(TraitImplBlocks(s.traitImpls, ctx)), ctx.Indent())
  {
    var impls := TraitImplBlocks(s.traitImpls, ctx);
    forall i | 0 <= i < |impls| ensures Indented(impls[i], ctx.Indent()) {
      TraitImplIndented(s.traitImpls[i], ctx);
    }
    ConcatIndented(impls, ctx.Indent());
  }

  lemma StructIndented(s: ParsedStruct, ctx: RenderContext)
    ensures Indented(StructLines(s, ctx), ctx.Indent())
  {
    var ind := ctx.Indent();
    var members := Separated(FunctionBlocks(s.methods, MethodContext(s, ctx)));
    var head := Head(s.deprecation, s.docs, ind, StructHeader(s));
    var gap: seq<string> := if |s.methods| > 0 then [""] else [];
    StructMethodsIndented(s, ctx);
    StructImplsIndented(s, ctx);
    HeadIndented(s.deprecation, s.docs, ind, StructHeader(s));
    PrefixLine(ind, "}");
    IndentedConcat(head, gap, ind);
    IndentedConcat(head + gap, members, ind);
    IndentedConcat(head + gap + members, [ind + "}", ""], ind);
    IndentedConcat(head + gap + members + [ind + "}", ""], Concat(TraitImplBlocks(s.traitImpls, ctx)), ind);
  }

  /** Indentation invariant: every line an item writes at depth `d` is blank
      or starts with `2 * d` spaces, however deeply its members nest. */
  lemma {:induction false} ItemIndented(item: ParsedItem, ctx: RenderContext)
    ensures Indented(ItemLines(item, ctx), ctx.Indent())
    decreases item, 2
  {
    var ind := ctx.Indent();
    match item {
      case Function(f) =>
        HeadIndented(f.deprecation, f.docs, ind, FunctionSignatureText(f.signature));
        BlankAfterIndented(FunctionLines(f, ctx), ind);
      case Struct(s) => StructIndented(s, ctx);
      case Enum(e) => EnumIndented(e, ctx);
      case Trait(t) => TraitIndented(t, ctx);
      case Constant(c) =>
        HeadIndented(c.deprecation, c.docs, ind, ConstantSignature(c));
        BlankAfterIndented(Head(c.deprecation, c.docs, ind, ConstantSignature(c)), ind);
      case Module(m) => ModuleIndented(m, ctx);
      case Macro(mac) =>
        HeadIndented(None, mac.docs, ind, mac.signature);
        BlankAfterIndented(Head(None, mac.docs, ind, mac.signature), ind);
      case TraitImpl(imp) => TraitImplIndented(imp, ctx);
      case ReExport(_) =>
    }
  }

  lemma {:induction false} ModuleIndented(m: ParsedModule, ctx: RenderContext)
    ensures Indented(ModuleLines(m, ctx), ctx.Indent())
    decreases m, 1
  {
    var ind := ctx.Indent();
    var ictx := ctx.WithDepth(ctx.depth + 1);
    ItemsIndented(m.items, ictx);
    DeeperIndented(ItemsLines(m.items, ictx), ctx, ctx.depth + 1);
    var head := Head(None, m.docs, ind, ModuleHeader(m));
    HeadIndented(None, m.docs, ind, ModuleHeader(m));
    BlankAfterIndented(head, ind);
    IndentedConcat(head + [""], ItemsLines(m.items, ictx), ind);
  }

  lemma {:induction false} ItemsIndented(items: seq<ParsedItem>, ctx: RenderContext)
    ensures Indented(ItemsLines(items, ctx), ctx.Indent())
    decreases items, 0
  {
    if |items| > 0 {
      ItemsIndented(items[..|items| - 1], ctx);
      ItemIndented(items[|items| - 1], ctx);
      IndentedConcat(ItemsLines(items[..|items| - 1], ctx), ItemLines(items[|items| - 1], ctx), ctx.Indent());
    }
  }

  // ---------------------------------------------------------------------
  // Shapes of members without members

  /** A struct without docs, deprecation, methods or trait impls is its
      header, the closing brace and a blank line. */
  lemma StructWithoutMembers(s: ParsedStruct, ctx: RenderContext)
    requires s.docs.None? && s.deprecation.None? && |s.methods| == 0 && |s.traitImpls| == 0
    ensures StructLines(s, ctx) == [ctx.Indent() + StructHeader(s), ctx.Indent() + "}", ""]
  {
    assert FunctionBlocks(s.methods, MethodContext(s, ctx)) == [];
    assert TraitImplBlocks(s.traitImpls, ctx) == [];
  }

  /** A trait impl without items is written without braces: its signature
      line, then a blank line, and no line opens a block. */
  lemma EmptyImplUnbraced(imp: ParsedTraitImpl, ctx: RenderContext)
    requires |imp.items| == 0
    ensures ImplBodyLines(imp, ctx) == [ctx.Indent() + ImplSignature(imp), ""]
    ensures forall i | 0 <= i < |TraitImplLines(imp, ctx)| :: TraitImplLines(imp, ctx)[i] != ctx.Indent() + ImplSignatureOpen(imp)
  {
    var ind := ctx.Indent();
    var open := ind + ImplSignatureOpen(imp);
    assert open[|ind|] == 'i';
    var docs := ImplDocLines(imp, ind);
    forall i | 0 <= i < |docs| ensures docs[i][|ind|] == '/' && |docs[i]| > |ind| {
      if imp.docs.Some? {
        DocLinesShape(imp.docs, ind);
        assert (ind + "///")[|ind|] == '/';
      } else {
        assert docs[i] == ind + GeneratedImplDoc(imp);
      }
    }
    var ls := TraitImplLines(imp, ctx);
    assert ls == docs + [ind + ImplSignature(imp), ""];
    forall i | 0 <= i < |ls| ensures ls[i] != open {
      if i < |docs| {
        assert ls[i] == docs[i];
      } else {
        assert |ls[i]| < |open|;
      }
    }
  }
}
