/** `ItemParser`: the walk from the root module of a rustdoc crate to a
    `ParsedModule` tree (src/parser/parser.rs).

    Each parse operation has a specification function (`...Of`) and, where
    the source builds its result by pushing inside loops, a method with those
    loops proved equal to it.  The borrowed crate the parser holds becomes a
    parameter `k`.  Nested modules are followed through ids, so the recursion
    is justified by a rank on ids (`Ranked`): a module's children rank below
    it, as they do in any rustdoc output, where modules form a tree. */
module ItemParser {
  import opened Wrappers
  import opened Strings
  import opened Lists
  import opened Types
  import opened Raw
  import opened TypeResolver
  import opened GenericsResolver

  // ---------------------------------------------------------------------
  // Trait-impl suppression

  /** The auto and blanket traits whose impls are never shown. */
  const FilteredTraits: seq<string> := [
    "Send", "Sync", "Freeze", "Unpin", "UnwindSafe", "RefUnwindSafe",
    "Borrow", "BorrowMut", "Into", "From", "TryInto", "TryFrom",
    "Any", "CloneToUninit", "ToOwned", "StructuralPartialEq", "ToString", "IntoFuture"]

  /** `attrs.iter().any(|attr| attr.contains("#[derive"))`. */
  function AnyDerive(attrs: seq<string>): bool
  {
    if |attrs| == 0 then false else Contains(attrs[0], "#[derive") || AnyDerive(attrs[1..])
  }

  /** `should_filter_trait_impl`, check by check in the source's order. */
  function ShouldFilterTraitImpl(item: RawItem, imp: RawImplData): bool
  {
    if imp.isSynthetic then true
    else if AnyDerive(item.attrs) then true
    else if imp.blanketImpl.Some? && imp.blanketImpl.value != RawNull then true
    else if imp.traitPath.Some? then LastSegment(imp.traitPath.value, "::") in FilteredTraits
    else false
  }

  // ---------------------------------------------------------------------
  // Specification functions

  /** Lifts a parse that always yields an item when it succeeds into the
      `Result<Option<_>>` shape the item loops consume. */
  function Kept<T>(r: Result<T>): Result<Option<T>>
  {
    match r
    case Ok(v) => Ok(Some(v))
    case Err(e) => Err(e)
  }

  function InputOf(input: (string, RawType)): Option<(string, RustType)>
  {
    Some((input.0, ParseType(input.1)))
  }

  /** `parse_function`: fails only when the item has no name. */
  function FunctionOf(item: RawItem, f: RawFunctionData): Result<ParsedFunction>
  {
    if item.name.None? then Err("Function missing name")
    else
      var signature := FunctionSignature(
        item.name.value, item.visibility, GenericsOf(f.generics),
        FilterMap(f.inputs, InputOf), ParseType(f.output), f.isAsync);
      Ok(ParsedFunction(signature, item.docs, item.deprecation))
  }

  /** A struct's plain field, when the id names a struct field. */
  function FieldAt(k: Crate, id: Id): Option<ParsedField>
  {
    if id in k.index && k.index[id].inner.RawStructField? then
      var fi := k.index[id];
      Some(ParsedField(fi.name.GetOr("unnamed"), fi.visibility, ParseType(fi.inner.fieldType), fi.docs, fi.deprecation))
    else None
  }

  function FieldStep(k: Crate): Id -> Option<ParsedField>
  {
    (id: Id) => FieldAt(k, id)
  }

  /** A function member of an inherent impl. */
  function MethodAt(k: Crate, id: Id): Result<Option<ParsedFunction>>
  {
    if id in k.index && k.index[id].inner.RawFunction? then
      Kept(FunctionOf(k.index[id], k.index[id].inner.funcData))
    else Ok(None)
  }

  function MethodStep(k: Crate): Id -> Result<Option<ParsedFunction>>
  {
    (id: Id) => MethodAt(k, id)
  }

  /** `parse_trait_impl_item`: associated types and methods. */
  function ImplItemOf(item: RawItem): Result<Option<ParsedTraitImplItem>>
  {
    match item.inner
    case RawAssocType(ty) =>
      Ok(Some(ImplAssocType(item.name.GetOr("unknown"), if ty.Some? then ParseType(ty.value) else Unit)))
    case RawFunction(f) =>
      (match FunctionOf(item, f)
       case Ok(func) => Ok(Some(ImplMethod(func)))
       case Err(e) => Err(e))
    case _ => Ok(None)
  }

  function ImplItemStep(k: Crate): Id -> Result<Option<ParsedTraitImplItem>>
  {
    (id: Id) => if id in k.index then ImplItemOf(k.index[id]) else Ok(None)
  }

  /** `parse_trait_impl`: nothing for an impl without a trait. */
  function TraitImplOf(k: Crate, item: RawItem, imp: RawImplData): Result<Option<ParsedTraitImpl>>
  {
    if imp.traitPath.None? then Ok(None)
    else
      match CollectAll(imp.items, ImplItemStep(k))
      case Err(e) => Err(e)
      case Ok(items) => Ok(Some(ParsedTraitImpl(imp.traitPath.value, ParseType(imp.forType), items, item.docs)))
  }

  /** What a struct's impl list contributes. */
  datatype ImplParts = ImplParts(methods: seq<ParsedFunction>, traitImpls: seq<ParsedTraitImpl>)

  /** The impl loop of `parse_struct`: an inherent impl adds its function
      members to the methods, a trait impl that is not suppressed is added
      to the trait impls, anything else adds nothing. */
  function ImplsOf(k: Crate, ids: seq<Id>): Result<ImplParts>
  {
    if |ids| == 0 then Ok(ImplParts([], []))
    else
      match ImplsOf(k, ids[..|ids| - 1])
      case Err(e) => Err(e)
      case Ok(acc) => ImplStepOf(k, acc, ids[|ids| - 1])
  }

  function ImplStepOf(k: Crate, acc: ImplParts, id: Id): Result<ImplParts>
  {
    if id !in k.index || !k.index[id].inner.RawImpl? then Ok(acc)
    else
      var implItem := k.index[id];
      var imp := implItem.inner.implData;
      if imp.traitPath.None? then
        match CollectAll(imp.items, MethodStep(k))
        case Err(e) => Err(e)
        case Ok(ms) => Ok(ImplParts(acc.methods + ms, acc.traitImpls))
      else if ShouldFilterTraitImpl(implItem, imp) then Ok(acc)
      else
        match TraitImplOf(k, implItem, imp)
        case Err(e) => Err(e)
        case Ok(None) => Ok(acc)
        case Ok(Some(t)) => Ok(ImplParts(acc.methods, acc.traitImpls + [t]))
  }

  /** `parse_struct`. */
  function StructOf(k: Crate, item: RawItem, s: RawStructData): Result<ParsedStruct>
  {
    if item.name.None? then Err("Struct missing name")
    else
      var fields := if s.kind.PlainStruct? then FilterMap(s.kind.fields, FieldStep(k)) else [];
      match ImplsOf(k, s.impls)
      case Err(e) => Err(e)
      case Ok(parts) =>
        Ok(ParsedStruct(item.name.value, item.visibility, GenericsOf(s.generics), item.docs,
                        item.deprecation, fields, parts.methods, parts.traitImpls))
  }

  function TupleFieldStep(k: Crate): Option<Id> -> Option<RustType>
  {
    (fid: Option<Id>) => if fid.Some? && fid.value in k.index && k.index[fid.value].inner.RawStructField? then
             Some(ParseType(k.index[fid.value].inner.fieldType))
           else None
  }

  function NamedFieldStep(k: Crate): Id -> Option<(string, RustType)>
  {
    (id: Id) => if id in k.index && k.index[id].inner.RawStructField? then
            Some((k.index[id].name.GetOr("unknown"), ParseType(k.index[id].inner.fieldType)))
          else None
  }

  /** `parse_variant`: an item that is not a variant reads as a unit variant. */
  function VariantOf(k: Crate, item: RawItem): Result<ParsedVariant>
  {
    if item.name.None? then Err("Variant missing name")
    else
      var kind :=
        if !item.inner.RawVariant? then UnitVariant
        else match item.inner.variantKind
          case PlainVariant => UnitVariant
          case TupleFields(fs) => TupleVariant(FilterMap(fs, TupleFieldStep(k)))
          case StructFields(fs) => StructVariant(FilterMap(fs, NamedFieldStep(k)));
      Ok(ParsedVariant(item.name.value, kind, item.docs))
  }

  function VariantStep(k: Crate): Id -> Result<Option<ParsedVariant>>
  {
    (id: Id) => if id in k.index then Kept(VariantOf(k, k.index[id])) else Ok(None)
  }

  /** `parse_enum`. */
  function EnumOf(k: Crate, item: RawItem, generics: RawGenerics, variants: seq<Id>): Result<ParsedEnum>
  {
    if item.name.None? then Err("Enum missing name")
    else
      match CollectAll(variants, VariantStep(k))
      case Err(e) => Err(e)
      case Ok(vs) =>
        Ok(ParsedEnum(item.name.value, item.visibility, GenericsOf(generics), vs, item.docs, item.deprecation))
  }

  /** `parse_trait_item`: associated types (with no bounds), methods and
      associated constants. */
  function TraitItemOf(item: RawItem): Result<Option<ParsedTraitItem>>
  {
    match item.inner
    case RawAssocType(_) => Ok(Some(AssocType(item.name.GetOr("unknown"), [], item.docs)))
    case RawFunction(f) =>
      (match FunctionOf(item, f)
       case Ok(func) => Ok(Some(Method(func)))
       case Err(e) => Err(e))
    case RawAssocConst(ty) => Ok(Some(AssocConst(item.name.GetOr("unknown"), ParseType(ty), item.docs)))
    case _ => Ok(None)
  }

  function TraitItemStep(k: Crate): Id -> Result<Option<ParsedTraitItem>>
  {
    (id: Id) => if id in k.index then TraitItemOf(k.index[id]) else Ok(None)
  }

  /** `parse_trait`. */
  function TraitOf(k: Crate, item: RawItem, generics: RawGenerics, items: seq<Id>): Result<ParsedTrait>
  {
    if item.name.None? then Err("Trait missing name")
    else
      match CollectAll(items, TraitItemStep(k))
      case Err(e) => Err(e)
      case Ok(ts) =>
        Ok(ParsedTrait(item.name.value, item.visibility, GenericsOf(generics), ts, item.docs, item.deprecation))
  }

  /** `parse_constant`. */
  function ConstantOf(item: RawItem, ty: RawType): Result<ParsedConstant>
  {
    if item.name.None? then Err("Constant missing name")
    else Ok(ParsedConstant(item.name.value, item.visibility, ParseType(ty), item.docs, item.deprecation))
  }

  /** The macro text can be sliced between its first `(` and its first `)`:
      when both occur, the `)` comes later (otherwise the slice panics). */
  predicate MacroSliceable(text: string)
  {
    IndexOf(text, "(").Some? && IndexOf(text, ")").Some? ==> IndexOf(text, "(").value < IndexOf(text, ")").value
  }

  /** `parse_macro`: the name is checked before the text is sliced. */
  function MacroOf(item: RawItem, text: string): Result<ParsedMacro>
    requires item.name.Some? ==> MacroSliceable(text)
  {
    if item.name.None? then Err("Macro missing name")
    else
      var name := item.name.value;
      var signature :=
        match IndexOf(text, "(")
        case None => "macro_rules! " + name
        case Some(start) =>
          match IndexOf(text, ")")
          case None => "macro_rules! " + name + "(...)"
          case Some(end) => "macro_rules! " + name + "(" + text[start + 1..end] + ")";
      Ok(ParsedMacro(signature, item.docs))
  }

  /** Module children rank below their module. */
  ghost predicate Ranked(k: Crate, rank: map<Id, nat>)
  {
    && k.index.Keys <= rank.Keys
    && forall id | id in k.index && k.index[id].inner.RawModule? ::
         forall j | 0 <= j < |k.index[id].inner.items| ::
           k.index[id].inner.items[j] in k.index ==> rank[k.index[id].inner.items[j]] < rank[id]
  }

  /** What the parser needs of a crate: a module tree, and named macros whose
      texts it can slice. */
  ghost predicate WellFormed(k: Crate, rank: map<Id, nat>)
  {
    && Ranked(k, rank)
    && forall id | id in k.index && k.index[id].inner.RawMacro? ::
         k.index[id].name.Some? ==> MacroSliceable(k.index[id].inner.text)
  }

  /** Every child of a module, when present, ranks below `bound`. */
  ghost predicate Below(k: Crate, rank: map<Id, nat>, ids: seq<Id>, bound: nat)
    requires k.index.Keys <= rank.Keys
  {
    forall i | 0 <= i < |ids| :: ids[i] in k.index ==> rank[ids[i]] < bound
  }

  /** `parse_item`: the parsed item, nothing for a missing id, an impl
      without a trait or a kind the parser skips, or the first error. */
  function ItemOf(k: Crate, ghost rank: map<Id, nat>, id: Id): Result<Option<ParsedItem>>
    requires WellFormed(k, rank)
    decreases if id in k.index then rank[id] + 1 else 0, 2
  {
    if id !in k.index then Ok(None)
    else
      var item := k.index[id];
      match item.inner
      case RawFunction(f) =>
        (match FunctionOf(item, f) case Ok(x) => Ok(Some(Function(x))) case Err(e) => Err(e))
      case RawStruct(s) =>
        (match StructOf(k, item, s) case Ok(x) => Ok(Some(Struct(x))) case Err(e) => Err(e))
      case RawEnum(g, vs) =>
        (match EnumOf(k, item, g, vs) case Ok(x) => Ok(Some(Enum(x))) case Err(e) => Err(e))
      case RawTrait(g, members) =>
        (match TraitOf(k, item, g, members) case Ok(x) => Ok(Some(Trait(x))) case Err(e) => Err(e))
      case RawConstant(ty) =>
        (match ConstantOf(item, ty) case Ok(x) => Ok(Some(Constant(x))) case Err(e) => Err(e))
      case RawModule(ids) =>
        (match ModuleOf(k, rank, item, ids, rank[id]) case Ok(x) => Ok(Some(Module(x))) case Err(e) => Err(e))
      case RawMacro(text) =>
        (match MacroOf(item, text) case Ok(x) => Ok(Some(Macro(x))) case Err(e) => Err(e))
      case RawImpl(imp) =>
        (match TraitImplOf(k, item, imp)
         case Ok(Some(x)) => Ok(Some(TraitImpl(x)))
         case Ok(None) => Ok(None)
         case Err(e) => Err(e))
      case _ => Ok(None)
  }

  /** `parse_module`: its children in order, skipping missing ids. */
  function ModuleOf(k: Crate, ghost rank: map<Id, nat>, item: RawItem, ids: seq<Id>, ghost bound: nat): Result<ParsedModule>
    requires WellFormed(k, rank) && Below(k, rank, ids, bound)
    decreases bound, 4
  {
    match ModuleItemsOf(k, rank, ids, bound)
    case Err(e) => Err(e)
    case Ok(items) => Ok(ParsedModule(item.name.GetOr("unknown"), item.visibility, items, item.docs))
  }

  /** The loop over a module's item ids. */
  function ModuleItemsOf(k: Crate, ghost rank: map<Id, nat>, ids: seq<Id>, ghost bound: nat): Result<seq<ParsedItem>>
    requires WellFormed(k, rank) && Below(k, rank, ids, bound)
    decreases bound, 3, |ids|
  {
    if |ids| == 0 then Ok([])
    else
      match ModuleItemsOf(k, rank, ids[..|ids| - 1], bound)
      case Err(e) => Err(e)
      case Ok(rest) =>
        match ItemOf(k, rank, ids[|ids| - 1])
        case Err(e) => Err(e)
        case Ok(None) => Ok(rest)
        case Ok(Some(x)) => Ok(rest + [x])
  }

  /** `parse_crate`: the root must be present; a root that is not a module
      gives a module with no items. */
  function CrateOf(k: Crate, ghost rank: map<Id, nat>): Result<ParsedModule>
    requires WellFormed(k, rank)
  {
    if k.root !in k.index then Err("Root module not found")
    else
      var root := k.index[k.root];
      if root.inner.RawModule? then
        match ModuleItemsOf(k, rank, root.inner.items, rank[k.root])
        case Err(e) => Err(e)
        case Ok(items) => Ok(ParsedModule(root.name.GetOr("unknown"), Public, items, root.docs))
      else Ok(ParsedModule(root.name.GetOr("unknown"), Public, [], root.docs))
  }

  // ---------------------------------------------------------------------
  // Parsing methods: the source's loops, each proved equal to its
  // specification function

  /** Once the impl loop has failed on a prefix, it fails with that error. */
  lemma {:induction false} ImplsErrExtends(k: Crate, ids: seq<Id>, j: nat)
    requires j <= |ids|
    requires ImplsOf(k, ids[..j]).Err?
    ensures ImplsOf(k, ids) == ImplsOf(k, ids[..j])
    decreases |ids| - j
  {
    if j < |ids| {
      assert ids[..j + 1][..j] == ids[..j];
      ImplsErrExtends(k, ids, j + 1);
    } else {
      assert ids[..j] == ids;
    }
  }

  /** Once the module loop has failed on a prefix, it fails with that error. */
  lemma {:induction false} ModuleItemsErrExtends(k: Crate, rank: map<Id, nat>, ids: seq<Id>, bound: nat, j: nat)
    requires WellFormed(k, rank) && Below(k, rank, ids, bound)
    requires j <= |ids|
    requires Below(k, rank, ids[..j], bound)
    requires ModuleItemsOf(k, rank, ids[..j], bound).Err?
    ensures ModuleItemsOf(k, rank, ids, bound) == ModuleItemsOf(k, rank, ids[..j], bound)
    decreases |ids| - j
  {
    if j < |ids| {
      assert ids[..j + 1][..j] == ids[..j];
      ModuleItemsErrExtends(k, rank, ids, bound, j + 1);
    } else {
      assert ids[..j] == ids;
    }
  }

  method ParseFunction(item: RawItem, f: RawFunctionData) returns (r: Result<ParsedFunction>)
    ensures r == FunctionOf(item, f)
  {
    if item.name.None? {
      return Err("Function missing name");
    }
    var generics := ParseGenerics(f.generics);
    var inputs: seq<(string, RustType)> := [];
    var i := 0;
    while i < |f.inputs|
      invariant 0 <= i <= |f.inputs|
      invariant inputs == FilterMap(f.inputs[..i], InputOf)
    {
      assert f.inputs[..i + 1][..i] == f.inputs[..i];
      inputs := inputs + [(f.inputs[i].0, ParseType(f.inputs[i].1))];
      i := i + 1;
    }
    assert f.inputs[..|f.inputs|] == f.inputs;
    var signature := FunctionSignature(item.name.value, item.visibility, generics, inputs, ParseType(f.output), f.isAsync);
    r := Ok(ParsedFunction(signature, item.docs, item.deprecation));
  }

  /** The inner loop of `parse_struct` over an inherent impl's members. */
  method ParseInherentMethods(k: Crate, ids: seq<Id>) returns (r: Result<seq<ParsedFunction>>)
    ensures r == CollectAll(ids, MethodStep(k))
  {
    var methods: seq<ParsedFunction> := [];
    var i := 0;
    while i < |ids|
      invariant 0 <= i <= |ids|
      invariant CollectAll(ids[..i], MethodStep(k)) == Ok(methods)
    {
      assert ids[..i + 1][..i] == ids[..i];
      var id := ids[i];
      if id in k.index && k.index[id].inner.RawFunction? {
        var m := ParseFunction(k.index[id], k.index[id].inner.funcData);
        if m.Err? {
          CollectAllErrExtends(ids, i + 1, MethodStep(k));
          return Err(m.error);
        }
        methods := methods + [m.value];
      }
      i := i + 1;
    }
    assert ids[..|ids|] == ids;
    r := Ok(methods);
  }

  method ParseTraitImplItem(item: RawItem) returns (r: Result<Option<ParsedTraitImplItem>>)
    ensures r == ImplItemOf(item)
  {
    match item.inner {
      case RawAssocType(ty) =>
        r := Ok(Some(ImplAssocType(item.name.GetOr("unknown"), if ty.Some? then ParseType(ty.value) else Unit)));
      case RawFunction(f) =>
        var func := ParseFunction(item, f);
        r := if func.Ok? then Ok(Some(ImplMethod(func.value))) else Err(func.error);
      case _ =>
        r := Ok(None);
    }
  }

  method ParseTraitImpl(k: Crate, item: RawItem, imp: RawImplData) returns (r: Result<Option<ParsedTraitImpl>>)
    ensures r == TraitImplOf(k, item, imp)
  {
    if imp.traitPath.None? {
      return Ok(None);
    }
    var forType := ParseType(imp.forType);
    var items: seq<ParsedTraitImplItem> := [];
    var i := 0;
    while i < |imp.items|
      invariant 0 <= i <= |imp.items|
      invariant CollectAll(imp.items[..i], ImplItemStep(k)) == Ok(items)
    {
      assert imp.items[..i + 1][..i] == imp.items[..i];
      var id := imp.items[i];
      if id in k.index {
        var x := ParseTraitImplItem(k.index[id]);
        if x.Err? {
          CollectAllErrExtends(imp.items, i + 1, ImplItemStep(k));
          return Err(x.error);
        }
        if x.value.Some? {
          items := items + [x.value.value];
        }
      }
      i := i + 1;
    }
    assert imp.items[..|imp.items|] == imp.items;
    r := Ok(Some(ParsedTraitImpl(imp.traitPath.value, forType, items, item.docs)));
  }

  /** The fields loop of `parse_struct`. */
  method ParseStructFields(k: Crate, ids: seq<Id>) returns (fields: seq<ParsedField>)
    ensures fields == FilterMap(ids, FieldStep(k))
  {
    fields := [];
    var i := 0;
    while i < |ids|
      invariant 0 <= i <= |ids|
      invariant fields == FilterMap(ids[..i], FieldStep(k))
    {
      assert ids[..i + 1][..i] == ids[..i];
      var id := ids[i];
      if id in k.index && k.index[id].inner.RawStructField? {
        var fi := k.index[id];
        fields := fields + [ParsedField(fi.name.GetOr("unnamed"), fi.visibility, ParseType(fi.inner.fieldType), fi.docs, fi.deprecation)];
      }
      i := i + 1;
    }
    assert ids[..|ids|] == ids;
  }

  /** One pass of the impl loop of `parse_struct`. */
  method ParseImpl(k: Crate, acc: ImplParts, id: Id) returns (r: Result<ImplParts>)
    ensures r == ImplStepOf(k, acc, id)
  {
    if id !in k.index || !k.index[id].inner.RawImpl? {
      return Ok(acc);
    }
    var implItem := k.index[id];
    var imp := implItem.inner.implData;
    if imp.traitPath.None? {
      var ms := ParseInherentMethods(k, imp.items);
      r := if ms.Ok? then Ok(ImplParts(acc.methods + ms.value, acc.traitImpls)) else Err(ms.error);
    } else if ShouldFilterTraitImpl(implItem, imp) {
      r := Ok(acc);
    } else {
      var t := ParseTraitImpl(k, implItem, imp);
      r := if t.Err? then Err(t.error)
           else if t.value.Some? then Ok(ImplParts(acc.methods, acc.traitImpls + [t.value.value]))
           else Ok(acc);
    }
  }

  /** The impl loop of `parse_struct`. */
  method ParseImpls(k: Crate, ids: seq<Id>) returns (r: Result<ImplParts>)
    ensures r == ImplsOf(k, ids)
  {
    var acc := ImplParts([], []);
    var j := 0;
    while j < |ids|
      invariant 0 <= j <= |ids|
      invariant ImplsOf(k, ids[..j]) == Ok(acc)
    {
      assert ids[..j + 1][..j] == ids[..j];
      var next := ParseImpl(k, acc, ids[j]);
      if next.Err? {
        ImplsErrExtends(k, ids, j + 1);
        return next;
      }
      acc := next.value;
      j := j + 1;
    }
    assert ids[..|ids|] == ids;
    r := Ok(acc);
  }

  method ParseStruct(k: Crate, item: RawItem, s: RawStructData) returns (r: Result<ParsedStruct>)
    ensures r == StructOf(k, item, s)
  {
    if item.name.None? {
      return Err("Struct missing name");
    }
    var generics := ParseGenerics(s.generics);
    var fields: seq<ParsedField> := [];
    if s.kind.PlainStruct? {
      fields := ParseStructFields(k, s.kind.fields);
    }
    var parts := ParseImpls(k, s.impls);
    if parts.Err? {
      return Err(parts.error);
    }
    r := Ok(ParsedStruct(item.name.value, item.visibility, generics, item.docs, item.deprecation,
                         fields, parts.value.methods, parts.value.traitImpls));
  }

  method ParseVariant(k: Crate, item: RawItem) returns (r: Result<ParsedVariant>)
    ensures r == VariantOf(k, item)
  {
    if item.name.None? {
      return Err("Variant missing name");
    }
    var kind := UnitVariant;
    if item.inner.RawVariant? {
      match item.inner.variantKind {
        case PlainVariant =>
        case TupleFields(fs) =>
          var types: seq<RustType> := [];
          var i := 0;
          while i < |fs|
            invariant 0 <= i <= |fs|
            invariant types == FilterMap(fs[..i], TupleFieldStep(k))
          {
            assert fs[..i + 1][..i] == fs[..i];
            var fid := fs[i];
            if fid.Some? && fid.value in k.index && k.index[fid.value].inner.RawStructField? {
              types := types + [ParseType(k.index[fid.value].inner.fieldType)];
            }
            i := i + 1;
          }
          assert fs[..|fs|] == fs;
          kind := TupleVariant(types);
        case StructFields(fs) =>
          var named: seq<(string, RustType)> := [];
          var i := 0;
          while i < |fs|
            invariant 0 <= i <= |fs|
            invariant named == FilterMap(fs[..i], NamedFieldStep(k))
          {
            assert fs[..i + 1][..i] == fs[..i];
            var id := fs[i];
            if id in k.index && k.index[id].inner.RawStructField? {
              named := named + [(k.index[id].name.GetOr("unknown"), ParseType(k.index[id].inner.fieldType))];
            }
            i := i + 1;
          }
          assert fs[..|fs|] == fs;
          kind := StructVariant(named);
      }
    }
    r := Ok(ParsedVariant(item.name.value, kind, item.docs));
  }

  method ParseEnum(k: Crate, item: RawItem, generics: RawGenerics, ids: seq<Id>) returns (r: Result<ParsedEnum>)
    ensures r == EnumOf(k, item, generics, ids)
  {
    if item.name.None? {
      return Err("Enum missing name");
    }
    var gs := ParseGenerics(generics);
    var variants: seq<ParsedVariant> := [];
    var i := 0;
    while i < |ids|
      invariant 0 <= i <= |ids|
      invariant CollectAll(ids[..i], VariantStep(k)) == Ok(variants)
    {
      assert ids[..i + 1][..i] == ids[..i];
      var id := ids[i];
      if id in k.index {
        var v := ParseVariant(k, k.index[id]);
        if v.Err? {
          CollectAllErrExtends(ids, i + 1, VariantStep(k));
          return Err(v.error);
        }
        variants := variants + [v.value];
      }
      i := i + 1;
    }
    assert ids[..|ids|] == ids;
    r := Ok(ParsedEnum(item.name.value, item.visibility, gs, variants, item.docs, item.deprecation));
  }

  method ParseTraitItem(item: RawItem) returns (r: Result<Option<ParsedTraitItem>>)
    ensures r == TraitItemOf(item)
  {
    match item.inner {
      case RawAssocType(_) =>
        r := Ok(Some(AssocType(item.name.GetOr("unknown"), [], item.docs)));
      case RawFunction(f) =>
        var func := ParseFunction(item, f);
        r := if func.Ok? then Ok(Some(Method(func.value))) else Err(func.error);
      case RawAssocConst(ty) =>
        r := Ok(Some(AssocConst(item.name.GetOr("unknown"), ParseType(ty), item.docs)));
      case _ =>
        r := Ok(None);
    }
  }

  method ParseTrait(k: Crate, item: RawItem, generics: RawGenerics, ids: seq<Id>) returns (r: Result<ParsedTrait>)
    ensures r == TraitOf(k, item, generics, ids)
  {
    if item.name.None? {
      return Err("Trait missing name");
    }
    var gs := ParseGenerics(generics);
    var items: seq<ParsedTraitItem> := [];
    var i := 0;
    while i < |ids|
      invariant 0 <= i <= |ids|
      invariant CollectAll(ids[..i], TraitItemStep(k)) == Ok(items)
    {
      assert ids[..i + 1][..i] == ids[..i];
      var id := ids[i];
      if id in k.index {
        var x := ParseTraitItem(k.index[id]);
        if x.Err? {
          CollectAllErrExtends(ids, i + 1, TraitItemStep(k));
          return Err(x.error);
        }
        if x.value.Some? {
          items := items + [x.value.value];
        }
      }
      i := i + 1;
    }
    assert ids[..|ids|] == ids;
    r := Ok(ParsedTrait(item.name.value, item.visibility, gs, items, item.docs, item.deprecation));
  }

  method ParseItem(k: Crate, ghost rank: map<Id, nat>, id: Id) returns (r: Result<Option<ParsedItem>>)
    requires WellFormed(k, rank)
    ensures r == ItemOf(k, rank, id)
    decreases if id in k.index then rank[id] + 1 else 0, 2
  {
    if id !in k.index {
      return Ok(None);
    }
    var item := k.index[id];
    match item.inner {
      case RawFunction(f) =>
        var x := ParseFunction(item, f);
        r := if x.Ok? then Ok(Some(Function(x.value))) else Err(x.error);
      case RawStruct(s) =>
        var x := ParseStruct(k, item, s);
        r := if x.Ok? then Ok(Some(Struct(x.value))) else Err(x.error);
      case RawEnum(g, vs) =>
        var x := ParseEnum(k, item, g, vs);
        r := if x.Ok? then Ok(Some(Enum(x.value))) else Err(x.error);
      case RawTrait(g, members) =>
        var x := ParseTrait(k, item, g, members);
        r := if x.Ok? then Ok(Some(Trait(x.value))) else Err(x.error);
      case RawConstant(ty) =>
        var x := ConstantOf(item, ty);
        r := if x.Ok? then Ok(Some(Constant(x.value))) else Err(x.error);
      case RawModule(ids) =>
        var x := ParseModule(k, rank, item, ids, rank[id]);
        r := if x.Ok? then Ok(Some(Module(x.value))) else Err(x.error);
      case RawMacro(text) =>
        var x := MacroOf(item, text);
        r := if x.Ok? then Ok(Some(Macro(x.value))) else Err(x.error);
      case RawImpl(imp) =>
        var x := ParseTraitImpl(k, item, imp);
        r := if x.Err? then Err(x.error) else if x.value.Some? then Ok(Some(TraitImpl(x.value.value))) else Ok(None);
      case _ =>
        r := Ok(None);
    }
  }

  method ParseModule(k: Crate, ghost rank: map<Id, nat>, item: RawItem, ids: seq<Id>, ghost bound: nat)
    returns (r: Result<ParsedModule>)
    requires WellFormed(k, rank) && Below(k, rank, ids, bound)
    ensures r == ModuleOf(k, rank, item, ids, bound)
    decreases bound, 4
  {
    var items := ParseModuleItems(k, rank, ids, bound);
    r := if items.Ok? then Ok(ParsedModule(item.name.GetOr("unknown"), item.visibility, items.value, item.docs))
         else Err(items.error);
  }

  /** The loop over a module's item ids, shared by `parse_module` and
      `parse_crate`. */
  method ParseModuleItems(k: Crate, ghost rank: map<Id, nat>, ids: seq<Id>, ghost bound: nat)
    returns (r: Result<seq<ParsedItem>>)
    requires WellFormed(k, rank) && Below(k, rank, ids, bound)
    ensures r == ModuleItemsOf(k, rank, ids, bound)
    decreases bound, 3
  {
    var items: seq<ParsedItem> := [];
    var i := 0;
    while i < |ids|
      invariant 0 <= i <= |ids|
      invariant Below(k, rank, ids[..i], bound)
      invariant ModuleItemsOf(k, rank, ids[..i], bound) == Ok(items)
    {
      assert ids[..i + 1][..i] == ids[..i];
      assert Below(k, rank, ids[..i + 1], bound);
      var x := ParseItem(k, rank, ids[i]);
      if x.Err? {
        ModuleItemsErrExtends(k, rank, ids, bound, i + 1);
        return Err(x.error);
      }
      if x.value.Some? {
        items := items + [x.value.value];
      }
      i := i + 1;
    }
    assert ids[..|ids|] == ids;
    r := Ok(items);
  }

  method ParseCrate(k: Crate, ghost rank: map<Id, nat>) returns (r: Result<ParsedModule>)
    requires WellFormed(k, rank)
    ensures r == CrateOf(k, rank)
  {
    if k.root !in k.index {
      return Err("Root module not found");
    }
    var root := k.index[k.root];
    var items: seq<ParsedItem> := [];
    if root.inner.RawModule? {
      var parsed := ParseModuleItems(k, rank, root.inner.items, rank[k.root]);
      if parsed.Err? {
        return Err(parsed.error);
      }
      items := parsed.value;
    }
    r := Ok(ParsedModule(root.name.GetOr("unknown"), Public, items, root.docs));
  }

  // ---------------------------------------------------------------------
  // Properties

  /** `AnyDerive` is the `any` over the attributes it stands for. */
  lemma {:induction false} AnyDeriveIff(attrs: seq<string>)
    ensures AnyDerive(attrs) <==> exists i | 0 <= i < |attrs| :: Contains(attrs[i], "#[derive")
  {
    if |attrs| > 0 {
      var tail := attrs[1..];
      AnyDeriveIff(tail);
      if exists i | 0 <= i < |tail| :: Contains(tail[i], "#[derive") {
        var i :| 0 <= i < |tail| && Contains(tail[i], "#[derive");
        assert Contains(attrs[i + 1], "#[derive");
      }
      if exists i | 0 <= i < |attrs| :: Contains(attrs[i], "#[derive") {
        var i :| 0 <= i < |attrs| && Contains(attrs[i], "#[derive");
        if i > 0 {
          assert Contains(tail[i - 1], "#[derive");
        }
      }
    }
  }

  /** A trait impl is suppressed exactly when it is synthetic, carries a
      derive attribute, is a blanket impl, or implements one of the listed
      traits, named by the last segment of its path. */
  lemma ShouldFilterIff(item: RawItem, imp: RawImplData)
    ensures ShouldFilterTraitImpl(item, imp) <==>
      || imp.isSynthetic
      || (exists i | 0 <= i < |item.attrs| :: Contains(item.attrs[i], "#[derive"))
      || (imp.blanketImpl.Some? && imp.blanketImpl.value != RawNull)
      || (imp.traitPath.Some? && LastSegment(imp.traitPath.value, "::") in FilteredTraits)
  {
    AnyDeriveIff(item.attrs);
  }

  /** A function always parses when it has a name, keeps its parameters in
      order with their parsed types, and fails only without a name. */
  lemma FunctionInputsKept(item: RawItem, f: RawFunctionData)
    ensures FunctionOf(item, f).Err? <==> item.name.None?
    ensures FunctionOf(item, f).Err? ==> FunctionOf(item, f).error == "Function missing name"
    ensures FunctionOf(item, f).Ok? ==>
      var sig := FunctionOf(item, f).value.signature;
      && sig.name == item.name.value
      && |sig.inputs| == |f.inputs|
      && (forall i | 0 <= i < |f.inputs| :: sig.inputs[i] == (f.inputs[i].0, ParseType(f.inputs[i].1)))
      && sig.output == ParseType(f.output)
      && sig.generics == GenericsOf(f.generics)
  {
    FilterMapAllSome(f.inputs, InputOf);
  }

  /** The trait impl an impl id contributes to its struct: an unsuppressed
      impl of a trait that parses. */
  function KeptTraitImpl(k: Crate, id: Id): Option<ParsedTraitImpl>
  {
    if id in k.index && k.index[id].inner.RawImpl? && k.index[id].inner.implData.traitPath.Some?
       && !ShouldFilterTraitImpl(k.index[id], k.index[id].inner.implData)
    then
      match TraitImplOf(k, k.index[id], k.index[id].inner.implData)
      case Ok(Some(t)) => Some(t)
      case _ => None
    else None
  }

  function KeptTraitImplStep(k: Crate): Id -> Option<ParsedTraitImpl>
  {
    (id: Id) => KeptTraitImpl(k, id)
  }

  /** A struct's trait impls are its unsuppressed trait impls, in the order
      of its impl list; none of them implements a listed trait. */
  lemma {:induction false} ImplsKeepUnfiltered(k: Crate, ids: seq<Id>)
    ensures ImplsOf(k, ids).Ok? ==> ImplsOf(k, ids).value.traitImpls == FilterMap(ids, KeptTraitImplStep(k))
    ensures ImplsOf(k, ids).Ok? ==>
      forall t | t in ImplsOf(k, ids).value.traitImpls :: LastSegment(t.traitPath, "::") !in FilteredTraits
  {
    if |ids| > 0 {
      ImplsKeepUnfiltered(k, ids[..|ids| - 1]);
    }
    if ImplsOf(k, ids).Ok? {
      forall t | t in ImplsOf(k, ids).value.traitImpls
        ensures LastSegment(t.traitPath, "::") !in FilteredTraits
      {
        FilterMapMember(ids, KeptTraitImplStep(k), t);
        var i :| 0 <= i < |ids| && KeptTraitImplStep(k)(ids[i]) == Some(t);
        ShouldFilterIff(k.index[ids[i]], k.index[ids[i]].inner.implData);
      }
    }
  }

  /** One kept trait impl is appended to the struct's trait impls. */
  lemma ImplStepKept(k: Crate, acc: ImplParts, id: Id)
    requires KeptTraitImpl(k, id).Some?
    ensures ImplStepOf(k, acc, id) == Ok(ImplParts(acc.methods, acc.traitImpls + [KeptTraitImpl(k, id).value]))
  {
    var implItem := k.index[id];
    var imp := implItem.inner.implData;
    assert imp.traitPath.Some? && !ShouldFilterTraitImpl(implItem, imp);
    assert TraitImplOf(k, implItem, imp) == Ok(Some(KeptTraitImpl(k, id).value));
  }

  /** Trait impls are not deduplicated: an impl listed twice is kept twice. */
  lemma ImplsNoDedup(k: Crate, id: Id)
    requires KeptTraitImpl(k, id).Some?
    ensures ImplsOf(k, [id, id]) == Ok(ImplParts([], [KeptTraitImpl(k, id).value, KeptTraitImpl(k, id).value]))
  {
    var t := KeptTraitImpl(k, id).value;
    ImplStepKept(k, ImplParts([], []), id);
    ImplStepKept(k, ImplParts([], [t]), id);
    assert [id][..0] == [];
    assert ImplsOf(k, []) == Ok(ImplParts([], []));
    assert [] + [t] == [t] && [t] + [t] == [t, t];
    assert ImplsOf(k, [id]) == Ok(ImplParts([], [t]));
    assert [id, id][..1] == [id];
  }

  /** The methods an impl id contributes to its struct: the function members
      of an inherent impl that parse, in order; nothing for a missing id, an
      item that is not an impl, or a trait impl. */
  function InherentMethods(k: Crate, id: Id): seq<ParsedFunction>
  {
    if id in k.index && k.index[id].inner.RawImpl? && k.index[id].inner.implData.traitPath.None? then
      FilterMap(k.index[id].inner.implData.items, OkValue(MethodStep(k)))
    else []
  }

  function InherentMethodsStep(k: Crate): Id -> seq<ParsedFunction>
  {
    (id: Id) => InherentMethods(k, id)
  }

  /** A step of the impl loop that succeeds appends the id's inherent methods
      to the methods and its kept trait impl, if any, to the trait impls. */
  lemma ImplStepParts(k: Crate, acc: ImplParts, id: Id)
    ensures ImplStepOf(k, acc, id).Ok? ==>
      ImplStepOf(k, acc, id) ==
        Ok(ImplParts(acc.methods + InherentMethods(k, id), acc.traitImpls + KeptTraitImpl(k, id).ToSeq()))
  {
    if id in k.index && k.index[id].inner.RawImpl? {
      var imp := k.index[id].inner.implData;
      if imp.traitPath.None? {
        CollectAllKept(imp.items, MethodStep(k));
      } else if !ShouldFilterTraitImpl(k.index[id], imp) && TraitImplOf(k, k.index[id], imp).Ok? {
        assert TraitImplOf(k, k.index[id], imp).value.Some?;
      }
    }
    assert acc.methods + [] == acc.methods && acc.traitImpls + [] == acc.traitImpls;
  }

  /** An inherent impl whose members are all named functions contributes
      every one of them, parsed, in order. */
  lemma InherentMethodsAllNamed(k: Crate, acc: ImplParts, id: Id)
    requires id in k.index && k.index[id].inner.RawImpl? && k.index[id].inner.implData.traitPath.None?
    requires var ms := k.index[id].inner.implData.items;
      forall i | 0 <= i < |ms| :: ms[i] in k.index && k.index[ms[i]].inner.RawFunction? && k.index[ms[i]].name.Some?
    ensures var ms := k.index[id].inner.implData.items;
      && |InherentMethods(k, id)| == |ms|
      && forall i | 0 <= i < |ms| ::
           InherentMethods(k, id)[i] == FunctionOf(k.index[ms[i]], k.index[ms[i]].inner.funcData).value
    ensures ImplStepOf(k, acc, id) == Ok(ImplParts(acc.methods + InherentMethods(k, id), acc.traitImpls))
  {
    var ms := k.index[id].inner.implData.items;
    FilterMapAllSome(ms, OkValue(MethodStep(k)));
    CollectAllOk(ms, MethodStep(k), OkValue(MethodStep(k)));
  }

  /** The impl loop, when it succeeds, gives the inherent methods of the
      impls one impl after the other, and their kept trait impls, in the
      order of the impl list. */
  lemma {:induction false} ImplsParts(k: Crate, ids: seq<Id>)
    ensures ImplsOf(k, ids).Ok? ==>
      ImplsOf(k, ids).value == ImplParts(FlatMap(ids, InherentMethodsStep(k)), FilterMap(ids, KeptTraitImplStep(k)))
  {
    if |ids| > 0 {
      var init := ids[..|ids| - 1];
      ImplsParts(k, init);
      if ImplsOf(k, init).Ok? {
        ImplStepParts(k, ImplsOf(k, init).value, ids[|ids| - 1]);
      }
    }
  }

  /** A struct parses when it has a name and its impl loop succeeds. Its
      fields are its present plain fields; its methods are the inherent
      methods of its impls and its trait impls the kept ones, in order. */
  lemma StructParts(k: Crate, item: RawItem, s: RawStructData)
    ensures StructOf(k, item, s).Err? <==> item.name.None? || ImplsOf(k, s.impls).Err?
    ensures StructOf(k, item, s).Err? ==> StructOf(k, item, s).error in {"Struct missing name", "Function missing name"}
    ensures StructOf(k, item, s).Ok? ==>
      var st := StructOf(k, item, s).value;
      && st.name == item.name.value
      && st.generics == GenericsOf(s.generics)
      && st.fields == (if s.kind.PlainStruct? then FilterMap(s.kind.fields, FieldStep(k)) else [])
      && st.methods == FlatMap(s.impls, InherentMethodsStep(k))
      && st.traitImpls == FilterMap(s.impls, KeptTraitImplStep(k))
  {
    ImplsParts(k, s.impls);
    ImplsErrors(k, s.impls);
  }

  /** A variant fails only without a name; a non-variant item and a plain
      variant read as unit variants. */
  lemma VariantParts(k: Crate, item: RawItem)
    ensures VariantOf(k, item).Err? <==> item.name.None?
    ensures VariantOf(k, item).Err? ==> VariantOf(k, item).error == "Variant missing name"
    ensures VariantOf(k, item).Ok? ==>
      var v := VariantOf(k, item).value;
      && v.name == item.name.value
      && v.docs == item.docs
      && (v.kind.UnitVariant? <==> !item.inner.RawVariant? || item.inner.variantKind.PlainVariant?)
      && (v.kind.TupleVariant? <==> item.inner.RawVariant? && item.inner.variantKind.TupleFields?)
      && (v.kind.StructVariant? <==> item.inner.RawVariant? && item.inner.variantKind.StructFields?)
  {
  }

  predicate IsFieldId(k: Crate, id: Id)
  {
    id in k.index && k.index[id].inner.RawStructField?
  }

  /** A tuple variant whose ids all name struct fields has their types, in
      order. */
  lemma TupleVariantTypes(k: Crate, item: RawItem)
    requires item.name.Some? && item.inner.RawVariant? && item.inner.variantKind.TupleFields?
    requires var fs := item.inner.variantKind.tupleFields;
      forall i | 0 <= i < |fs| :: fs[i].Some? && IsFieldId(k, fs[i].value)
    ensures var fs := item.inner.variantKind.tupleFields;
      var types := VariantOf(k, item).value.kind.types;
      && |types| == |fs|
      && forall i | 0 <= i < |fs| :: types[i] == ParseType(k.index[fs[i].value].inner.fieldType)
  {
    FilterMapAllSome(item.inner.variantKind.tupleFields, TupleFieldStep(k));
  }

  /** A struct variant whose ids all name struct fields has their names
      (`unknown` for a nameless one) and types, in order. */
  lemma StructVariantFields(k: Crate, item: RawItem)
    requires item.name.Some? && item.inner.RawVariant? && item.inner.variantKind.StructFields?
    requires var fs := item.inner.variantKind.fields;
      forall i | 0 <= i < |fs| :: IsFieldId(k, fs[i])
    ensures var fs := item.inner.variantKind.fields;
      var named := VariantOf(k, item).value.kind.fields;
      && |named| == |fs|
      && forall i | 0 <= i < |fs| ::
           named[i] == (k.index[fs[i]].name.GetOr("unknown"), ParseType(k.index[fs[i]].inner.fieldType))
  {
    FilterMapAllSome(item.inner.variantKind.fields, NamedFieldStep(k));
  }

  /** An enum fails exactly when it or one of its present variants has no
      name; otherwise its variants are the present ids' variants, in order. */
  lemma EnumVariants(k: Crate, item: RawItem, generics: RawGenerics, ids: seq<Id>)
    ensures EnumOf(k, item, generics, ids).Err? <==>
      item.name.None? || exists i | 0 <= i < |ids| :: ids[i] in k.index && k.index[ids[i]].name.None?
    ensures EnumOf(k, item, generics, ids).Ok? ==>
      var e := EnumOf(k, item, generics, ids).value;
      && e.name == item.name.value
      && e.generics == GenericsOf(generics)
      && e.variants == FilterMap(ids, OkValue(VariantStep(k)))
    ensures EnumOf(k, item, generics, ids).Ok? && (forall i | 0 <= i < |ids| :: ids[i] in k.index) ==>
      var vs := EnumOf(k, item, generics, ids).value.variants;
      && |vs| == |ids|
      && forall i | 0 <= i < |ids| :: vs[i] == VariantOf(k, k.index[ids[i]]).value
  {
    CollectAllErr(ids, VariantStep(k));
    CollectAllKept(ids, VariantStep(k));
    if EnumOf(k, item, generics, ids).Ok? && (forall i | 0 <= i < |ids| :: ids[i] in k.index) {
      FilterMapAllSome(ids, OkValue(VariantStep(k)));
    }
  }

  /** What each kind of trait member parses to: an associated type always
      with no bounds, a method failing exactly without a name, an associated
      constant with its type, and nothing for other kinds. */
  lemma TraitItemKinds(item: RawItem)
    ensures TraitItemOf(item).Err? <==> item.inner.RawFunction? && item.name.None?
    ensures TraitItemOf(item) == Ok(None) <==>
      !(item.inner.RawAssocType? || item.inner.RawFunction? || item.inner.RawAssocConst?)
    ensures TraitItemOf(item).Ok? && TraitItemOf(item).value.Some? ==>
      var x := TraitItemOf(item).value.value;
      && (x.AssocType? <==> item.inner.RawAssocType?)
      && (x.AssocType? ==> x.name == item.name.GetOr("unknown") && x.bounds == [] && x.docs == item.docs)
      && (x.AssocConst? <==> item.inner.RawAssocConst?)
      && (x.AssocConst? ==> x.name == item.name.GetOr("unknown") && x.ty == ParseType(item.inner.constType))
      && (x.Method? <==> item.inner.RawFunction?)
      && (x.Method? ==> x.func.signature.name == item.name.value)
  {
  }

  /** A trait fails exactly when it or one of its present methods has no
      name; otherwise it keeps its members in order, and none of its
      associated types has bounds. */
  lemma TraitItems(k: Crate, item: RawItem, generics: RawGenerics, ids: seq<Id>)
    ensures TraitOf(k, item, generics, ids).Err? <==>
      item.name.None? ||
      exists i | 0 <= i < |ids| :: ids[i] in k.index && k.index[ids[i]].inner.RawFunction? && k.index[ids[i]].name.None?
    ensures TraitOf(k, item, generics, ids).Ok? ==>
      var t := TraitOf(k, item, generics, ids).value;
      && t.name == item.name.value
      && t.generics == GenericsOf(generics)
      && t.items == FilterMap(ids, OkValue(TraitItemStep(k)))
      && forall x | x in t.items && x.AssocType? :: x.bounds == []
  {
    CollectAllErr(ids, TraitItemStep(k));
    CollectAllKept(ids, TraitItemStep(k));
    if TraitOf(k, item, generics, ids).Ok? {
      var t := TraitOf(k, item, generics, ids).value;
      forall x | x in t.items && x.AssocType?
        ensures x.bounds == []
      {
        FilterMapMember(ids, OkValue(TraitItemStep(k)), x);
        var i :| 0 <= i < |ids| && OkValue(TraitItemStep(k))(ids[i]) == Some(x);
        TraitItemKinds(k.index[ids[i]]);
      }
    }
  }

  /** What each kind of trait-impl member parses to: an associated type with
      its type, or `()` without one, a method failing exactly without a name,
      and nothing for other kinds. */
  lemma ImplItemKinds(item: RawItem)
    ensures ImplItemOf(item).Err? <==> item.inner.RawFunction? && item.name.None?
    ensures ImplItemOf(item) == Ok(None) <==> !(item.inner.RawAssocType? || item.inner.RawFunction?)
    ensures ImplItemOf(item).Ok? && ImplItemOf(item).value.Some? ==>
      var x := ImplItemOf(item).value.value;
      && (x.ImplAssocType? <==> item.inner.RawAssocType?)
      && (x.ImplAssocType? ==>
            && x.name == item.name.GetOr("unknown")
            && x.ty == (if item.inner.assocType.Some? then ParseType(item.inner.assocType.value) else Unit))
      && (x.ImplMethod? <==> item.inner.RawFunction?)
      && (x.ImplMethod? ==> x.func.signature.name == item.name.value)
  {
  }

  /** An impl without a trait gives nothing. A trait impl fails exactly when
      one of its present methods has no name; otherwise it carries its trait
      path, its parsed self type, its docs and its members in order. */
  lemma TraitImplParts(k: Crate, item: RawItem, imp: RawImplData)
    ensures TraitImplOf(k, item, imp) == Ok(None) <==> imp.traitPath.None?
    ensures TraitImplOf(k, item, imp).Err? <==>
      imp.traitPath.Some? &&
      exists i | 0 <= i < |imp.items| ::
        imp.items[i] in k.index && k.index[imp.items[i]].inner.RawFunction? && k.index[imp.items[i]].name.None?
    ensures TraitImplOf(k, item, imp).Ok? && TraitImplOf(k, item, imp).value.Some? ==>
      var t := TraitImplOf(k, item, imp).value.value;
      && t.traitPath == imp.traitPath.value
      && t.forType == ParseType(imp.forType)
      && t.docs == item.docs
      && t.items == FilterMap(imp.items, OkValue(ImplItemStep(k)))
  {
    CollectAllErr(imp.items, ImplItemStep(k));
    CollectAllKept(imp.items, ImplItemStep(k));
  }

  /** Present ids, in order. */
  function PresentStep(k: Crate): Id -> Option<Id>
  {
    (id: Id) => if id in k.index then Some(id) else None
  }

  /** A module item id missing from the index is skipped. */
  lemma ModuleItemSkipped(k: Crate, rank: map<Id, nat>, ids: seq<Id>, id: Id, bound: nat)
    requires WellFormed(k, rank) && Below(k, rank, ids, bound) && id !in k.index
    ensures Below(k, rank, ids + [id], bound)
    ensures ModuleItemsOf(k, rank, ids + [id], bound) == ModuleItemsOf(k, rank, ids, bound)
  {
    assert (ids + [id])[..|ids|] == ids;
  }

  /** A module's item loop reads the same as the loop over its ids that are
      present in the index. */
  lemma {:induction false} ModuleItemsSkipMissing(k: Crate, rank: map<Id, nat>, ids: seq<Id>, bound: nat)
    requires WellFormed(k, rank) && Below(k, rank, ids, bound)
    ensures Below(k, rank, FilterMap(ids, PresentStep(k)), bound)
    ensures ModuleItemsOf(k, rank, ids, bound) == ModuleItemsOf(k, rank, FilterMap(ids, PresentStep(k)), bound)
    decreases |ids|
  {
    PresentBelow(k, rank, ids, bound);
    if |ids| > 0 {
      var init := ids[..|ids| - 1];
      var last := ids[|ids| - 1];
      assert init + [last] == ids;
      assert Below(k, rank, init, bound);
      ModuleItemsSkipMissing(k, rank, init, bound);
      var p := FilterMap(init, PresentStep(k));
      if last in k.index {
        assert FilterMap(ids, PresentStep(k)) == p + [last];
        ModuleItemsSameStep(k, rank, init, p, last, bound);
      } else {
        assert FilterMap(ids, PresentStep(k)) == p;
        ModuleItemSkipped(k, rank, init, last, bound);
      }
    }
  }

  /** Every present id is below the bound its list is below. */
  lemma PresentBelow(k: Crate, rank: map<Id, nat>, ids: seq<Id>, bound: nat)
    requires k.index.Keys <= rank.Keys && Below(k, rank, ids, bound)
    ensures Below(k, rank, FilterMap(ids, PresentStep(k)), bound)
  {
    var p := FilterMap(ids, PresentStep(k));
    forall j | 0 <= j < |p| && p[j] in k.index
      ensures rank[p[j]] < bound
    {
      FilterMapMember(ids, PresentStep(k), p[j]);
    }
  }

  /** Two id lists whose loops agree still agree after the same next id. */
  lemma ModuleItemsSameStep(k: Crate, rank: map<Id, nat>, a: seq<Id>, b: seq<Id>, x: Id, bound: nat)
    requires WellFormed(k, rank) && Below(k, rank, a + [x], bound) && Below(k, rank, b + [x], bound)
    requires Below(k, rank, a, bound) && Below(k, rank, b, bound)
    requires ModuleItemsOf(k, rank, a, bound) == ModuleItemsOf(k, rank, b, bound)
    ensures ModuleItemsOf(k, rank, a + [x], bound) == ModuleItemsOf(k, rank, b + [x], bound)
  {
    assert (a + [x])[..|a|] == a;
    assert (b + [x])[..|b|] == b;
  }

  /** The messages the item parsers fail with. */
  const MissingNameErrors: set<string> := {
    "Function missing name", "Struct missing name", "Enum missing name", "Variant missing name",
    "Trait missing name", "Constant missing name", "Macro missing name"}

  lemma InherentMethodErrors(k: Crate, ids: seq<Id>)
    ensures CollectAll(ids, MethodStep(k)).Err? ==> CollectAll(ids, MethodStep(k)).error == "Function missing name"
  {
    CollectAllErr(ids, MethodStep(k));
  }

  lemma TraitImplErrors(k: Crate, item: RawItem, imp: RawImplData)
    ensures TraitImplOf(k, item, imp).Err? ==> TraitImplOf(k, item, imp).error == "Function missing name"
  {
    CollectAllErr(imp.items, ImplItemStep(k));
  }

  lemma {:induction false} ImplsErrors(k: Crate, ids: seq<Id>)
    ensures ImplsOf(k, ids).Err? ==> ImplsOf(k, ids).error == "Function missing name"
  {
    if |ids| > 0 {
      ImplsErrors(k, ids[..|ids| - 1]);
      var id := ids[|ids| - 1];
      if id in k.index && k.index[id].inner.RawImpl? {
        InherentMethodErrors(k, k.index[id].inner.implData.items);
        TraitImplErrors(k, k.index[id], k.index[id].inner.implData);
      }
    }
  }

  lemma EnumErrors(k: Crate, item: RawItem, generics: RawGenerics, ids: seq<Id>)
    ensures EnumOf(k, item, generics, ids).Err? ==>
      EnumOf(k, item, generics, ids).error in {"Enum missing name", "Variant missing name"}
  {
    CollectAllErr(ids, VariantStep(k));
  }

  lemma TraitErrors(k: Crate, item: RawItem, generics: RawGenerics, ids: seq<Id>)
    ensures TraitOf(k, item, generics, ids).Err? ==>
      TraitOf(k, item, generics, ids).error in {"Trait missing name", "Function missing name"}
  {
    CollectAllErr(ids, TraitItemStep(k));
  }

  /** An item fails to parse only for a missing name. */
  lemma {:induction false} ItemErrors(k: Crate, rank: map<Id, nat>, id: Id)
    requires WellFormed(k, rank)
    ensures ItemOf(k, rank, id).Err? ==> ItemOf(k, rank, id).error in MissingNameErrors
    decreases if id in k.index then rank[id] + 1 else 0, 2
  {
    if id in k.index {
      var item := k.index[id];
      match item.inner {
        case RawStruct(s) => ImplsErrors(k, s.impls);
        case RawEnum(g, vs) => EnumErrors(k, item, g, vs);
        case RawTrait(g, members) => TraitErrors(k, item, g, members);
        case RawModule(ids) => ModuleItemsErrors(k, rank, ids, rank[id]);
        case RawImpl(imp) => TraitImplErrors(k, item, imp);
        case _ =>
      }
    }
  }

  lemma {:induction false} ModuleItemsErrors(k: Crate, rank: map<Id, nat>, ids: seq<Id>, bound: nat)
    requires WellFormed(k, rank) && Below(k, rank, ids, bound)
    ensures ModuleItemsOf(k, rank, ids, bound).Err? ==> ModuleItemsOf(k, rank, ids, bound).error in MissingNameErrors
    decreases bound, 3, |ids|
  {
    if |ids| > 0 {
      ModuleItemsErrors(k, rank, ids[..|ids| - 1], bound);
      ItemErrors(k, rank, ids[|ids| - 1]);
    }
  }

  /** A module's item loop fails exactly when one of its children fails, and
      then with the error of the first child that fails. */
  lemma {:induction false} ModuleItemsFail(k: Crate, rank: map<Id, nat>, ids: seq<Id>, bound: nat)
    requires WellFormed(k, rank) && Below(k, rank, ids, bound)
    ensures ModuleItemsOf(k, rank, ids, bound).Err? <==> exists i | 0 <= i < |ids| :: ItemOf(k, rank, ids[i]).Err?
    ensures ModuleItemsOf(k, rank, ids, bound).Err? ==>
      exists i | 0 <= i < |ids| :: ItemOf(k, rank, ids[i]) == Err(ModuleItemsOf(k, rank, ids, bound).error)
        && forall j | 0 <= j < i :: ItemOf(k, rank, ids[j]).Ok?
    decreases |ids|
  {
    if |ids| > 0 {
      var init := ids[..|ids| - 1];
      assert forall i | 0 <= i < |init| :: init[i] == ids[i];
      ModuleItemsFail(k, rank, init, bound);
    }
  }

  /** The crate fails only when its root is missing ("Root module not
      found", and exactly then) or when an item has no name. */
  lemma CrateErrors(k: Crate, rank: map<Id, nat>)
    requires WellFormed(k, rank)
    ensures CrateOf(k, rank).Err? ==>
      CrateOf(k, rank).error == "Root module not found" || CrateOf(k, rank).error in MissingNameErrors
    ensures CrateOf(k, rank) == Err("Root module not found") <==> k.root !in k.index
  {
    if k.root in k.index && k.index[k.root].inner.RawModule? {
      ModuleItemsErrors(k, rank, k.index[k.root].inner.items, rank[k.root]);
    }
  }

  /** Which raw kinds yield which parsed kinds, and which yield nothing. */
  lemma ItemKinds(k: Crate, rank: map<Id, nat>, id: Id)
    requires WellFormed(k, rank)
    ensures id !in k.index ==> ItemOf(k, rank, id) == Ok(None)
    ensures id in k.index ==>
      var inner := k.index[id].inner;
      ItemOf(k, rank, id) == Ok(None) <==>
        inner.RawStructField? || inner.RawVariant? || inner.RawAssocType? || inner.RawAssocConst?
        || inner.RawOtherItem? || (inner.RawImpl? && inner.implData.traitPath.None?)
    ensures id in k.index && ItemOf(k, rank, id).Ok? && ItemOf(k, rank, id).value.Some? ==>
      var inner := k.index[id].inner;
        var x := ItemOf(k, rank, id).value.value;
        && (x.Function? <==> inner.RawFunction?)
        && (x.Struct? <==> inner.RawStruct?)
        && (x.Enum? <==> inner.RawEnum?)
        && (x.Trait? <==> inner.RawTrait?)
        && (x.Constant? <==> inner.RawConstant?)
        && (x.Module? <==> inner.RawModule?)
        && (x.Macro? <==> inner.RawMacro?)
        && (x.TraitImpl? <==> inner.RawImpl?)
        && !x.ReExport?
  {
  }

  /** A nameless function, struct, enum, trait, constant or macro aborts the
      parse with its kind's message; a nameless module is called "unknown". */
  lemma NamelessItemFails(k: Crate, rank: map<Id, nat>, id: Id)
    requires WellFormed(k, rank) && id in k.index && k.index[id].name.None?
    ensures k.index[id].inner.RawFunction? ==> ItemOf(k, rank, id) == Err("Function missing name")
    ensures k.index[id].inner.RawStruct? ==> ItemOf(k, rank, id) == Err("Struct missing name")
    ensures k.index[id].inner.RawEnum? ==> ItemOf(k, rank, id) == Err("Enum missing name")
    ensures k.index[id].inner.RawTrait? ==> ItemOf(k, rank, id) == Err("Trait missing name")
    ensures k.index[id].inner.RawConstant? ==> ItemOf(k, rank, id) == Err("Constant missing name")
    ensures k.index[id].inner.RawMacro? ==> ItemOf(k, rank, id) == Err("Macro missing name")
    ensures k.index[id].inner.RawModule? && ItemOf(k, rank, id).Ok? ==>
      ItemOf(k, rank, id).value.value.md.name == "unknown"
  {
  }

  /** `parse_macro`'s three signature forms: no `(`; a `(` but no `)`; and
      otherwise the text strictly between the first `(` and the first `)`. */
  lemma MacroSignature(item: RawItem, text: string)
    requires MacroSliceable(text) && item.name.Some?
    ensures MacroOf(item, text).Ok?
    ensures '(' !in text ==> MacroOf(item, text).value.signature == "macro_rules! " + item.name.value
    ensures '(' in text && ')' !in text ==>
      MacroOf(item, text).value.signature == "macro_rules! " + item.name.value + "(...)"
    ensures '(' in text && ')' in text ==>
      exists s, e | 0 <= s < e < |text| ::
        && text[s] == '(' && '(' !in text[..s]
        && text[e] == ')' && ')' !in text[..e]
        && MacroOf(item, text).value.signature == "macro_rules! " + item.name.value + "(" + text[s + 1..e] + ")"
  {
    assert "(" == ['('];
    assert ")" == [')'];
    IndexOfChar(text, '(');
    IndexOfChar(text, ')');
    if '(' in text && ')' in text {
      var s := IndexOf(text, "(").value;
      var e := IndexOf(text, ")").value;
      assert text[s] == '(' && text[e] == ')';
    }
  }
}
