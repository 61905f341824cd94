/** The parsed representation the renderer works on: `RustType` with its
    canonical `Display` text, generics, and one record per kind of documented
    item (src/parser/types.rs). */
module Types {
  import opened Wrappers
  import opened Strings

  /** Item visibility as rustdoc reports it. */
  datatype Visibility = Public | Default | Crate | Restricted(path: string)

  /** A `#[deprecated]` marker. */
  datatype Deprecation = Deprecation(since: Option<string>, note: Option<string>)

  /** A type expression, reduced to what the renderer prints. */
  datatype RustType =
    | Primitive(name: string)
    | Generic(name: string)
    | Reference(lifetime: Option<string>, mutable: bool, inner: RustType)
    | Tuple(elements: seq<RustType>)
    | Slice(inner: RustType)
    | Array(inner: RustType, size: string)
    | Path(path: string, generics: seq<RustType>)
    | RawPointer(mutable: bool, inner: RustType)
    | QualifiedPath(base: string, name: string)
    | DynTrait(traits: seq<string>, lifetime: Option<string>)
    | Unit
    | Unknown

  /** `lifetime + " "`, or nothing without a lifetime. */
  function LifetimePrefix(lifetime: Option<string>): string
  {
    match lifetime
    case Some(l) => l + " "
    case None => ""
  }

  /** `impl Display for RustType`: the text a type is written as. */
  function Display(t: RustType): string
    decreases t, 1
  {
    match t
    case Primitive(n) => n
    case Generic(n) => n
    case Reference(lt, m, inner) =>
      "&" + LifetimePrefix(lt) + (if m then "mut " else "") + Display(inner)
    case Tuple(es) => if |es| == 0 then "()" else "(" + Join(DisplayAll(es), ", ") + ")"
    case Slice(inner) => "[" + Display(inner) + "]"
    case Array(inner, size) => "[" + Display(inner) + "; " + size + "]"
    case Path(p, gs) => if |gs| == 0 then p else p + "<" + Join(DisplayAll(gs), ", ") + ">"
    case RawPointer(m, inner) => (if m then "*mut " else "*const ") + Display(inner)
    case QualifiedPath(b, n) => b + "::" + n
    case DynTrait(trs, lt) => "dyn " + LifetimePrefix(lt) + Join(trs, " + ")
    case Unit => "()"
    case Unknown => "..."
  }

  /** The texts of a list of types, element by element. */
  function DisplayAll(ts: seq<RustType>): (r: seq<string>)
    ensures |r| == |ts|
    ensures forall i | 0 <= i < |ts| :: r[i] == Display(ts[i])
    decreases ts, 0
  {
    if |ts| == 0 then [] else DisplayAll(ts[..|ts| - 1]) + [Display(ts[|ts| - 1])]
  }

  /** Every name inside `t` is free of line breaks. */
  predicate NewlineFree(t: RustType)
    decreases t
  {
    match t
    case Primitive(n) => '\n' !in n
    case Generic(n) => '\n' !in n
    case Reference(lt, _, inner) => (lt.Some? ==> '\n' !in lt.value) && NewlineFree(inner)
    case Tuple(es) => forall i | 0 <= i < |es| :: NewlineFree(es[i])
    case Slice(inner) => NewlineFree(inner)
    case Array(inner, size) => '\n' !in size && NewlineFree(inner)
    case Path(p, gs) => '\n' !in p && forall i | 0 <= i < |gs| :: NewlineFree(gs[i])
    case RawPointer(_, inner) => NewlineFree(inner)
    case QualifiedPath(b, n) => '\n' !in b && '\n' !in n
    case DynTrait(trs, lt) =>
      (lt.Some? ==> '\n' !in lt.value) && forall i | 0 <= i < |trs| :: '\n' !in trs[i]
    case Unit => true
    case Unknown => true
  }

  /** The canonical text of each type shape. */
  lemma DisplayForms(t: RustType)
    ensures t.Unit? ==> Display(t) == "()"
    ensures t.Unknown? ==> Display(t) == "..."
    ensures t.Tuple? && |t.elements| == 0 ==> Display(t) == "()"
    ensures t.Tuple? && |t.elements| > 0 ==>
      Display(t) == "(" + Join(DisplayAll(t.elements), ", ") + ")"
    ensures t.Path? && |t.generics| == 0 ==> Display(t) == t.path
    ensures t.Path? && |t.generics| > 0 ==>
      Display(t) == t.path + "<" + Join(DisplayAll(t.generics), ", ") + ">"
    ensures t.Reference? ==>
      Display(t) == "&" + LifetimePrefix(t.lifetime) + (if t.mutable then "mut " else "") + Display(t.inner)
    ensures t.Slice? ==> Display(t) == "[" + Display(t.inner) + "]"
    ensures t.Array? ==> Display(t) == "[" + Display(t.inner) + "; " + t.size + "]"
    ensures t.RawPointer? && t.mutable ==> Display(t) == "*mut " + Display(t.inner)
    ensures t.RawPointer? && !t.mutable ==> Display(t) == "*const " + Display(t.inner)
    ensures t.QualifiedPath? ==> Display(t) == t.base + "::" + t.name
    ensures t.DynTrait? ==> Display(t) == "dyn " + LifetimePrefix(t.lifetime) + Join(t.traits, " + ")
  {
  }

  /** A type whose names hold no line break is written on one line; this is
      what lets every rendered signature stay a single output line. */
  lemma {:induction false} DisplayNewlineFree(t: RustType)
    requires NewlineFree(t)
    ensures '\n' !in Display(t)
    decreases t, 1
  {
    match t
    case Reference(lt, m, inner) => DisplayNewlineFree(inner);
    case Tuple(es) =>
      if |es| > 0 {
        DisplayAllNewlineFree(es);
        JoinNewlineFree(DisplayAll(es), ", ");
      }
    case Slice(inner) => DisplayNewlineFree(inner);
    case Array(inner, _) => DisplayNewlineFree(inner);
    case Path(_, gs) =>
      if |gs| > 0 {
        DisplayAllNewlineFree(gs);
        JoinNewlineFree(DisplayAll(gs), ", ");
      }
    case RawPointer(_, inner) => DisplayNewlineFree(inner);
    case DynTrait(trs, _) => JoinNewlineFree(trs, " + ");
    case Primitive(_) =>
    case Generic(_) =>
    case QualifiedPath(_, _) =>
    case Unit =>
    case Unknown =>
  }

  lemma {:induction false} DisplayAllNewlineFree(ts: seq<RustType>)
    requires forall i | 0 <= i < |ts| :: NewlineFree(ts[i])
    ensures forall i | 0 <= i < |ts| :: '\n' !in DisplayAll(ts)[i]
    decreases ts, 0
  {
    forall i | 0 <= i < |ts| ensures '\n' !in DisplayAll(ts)[i] {
      DisplayNewlineFree(ts[i]);
    }
  }

  /** Joining line-free parts with a line-free separator gives a line-free text. */
  lemma {:induction false} JoinNewlineFree(parts: seq<string>, sep: string)
    requires forall i | 0 <= i < |parts| :: '\n' !in parts[i]
    requires '\n' !in sep
    ensures '\n' !in Join(parts, sep)
    decreases |parts|
  {
    if |parts| > 1 {
      JoinNewlineFree(parts[..|parts| - 1], sep);
    }
  }

  datatype GenericParamKind =
    | TypeParam(bounds: seq<string>)
    | LifetimeParam
    /** Rendered by the renderer but absent from the parser's own enum. */
    | ConstParam(ty: RustType)

  datatype GenericParam = GenericParam(name: string, kind: GenericParamKind)

  datatype Generics = Generics(params: seq<GenericParam>, whereClauses: seq<string>)

  const NoGenerics := Generics([], [])

  datatype FunctionSignature = FunctionSignature(
    name: string,
    visibility: Visibility,
    generics: Generics,
    inputs: seq<(string, RustType)>,
    output: RustType,
    isAsync: bool)

  datatype ParsedFunction = ParsedFunction(
    signature: FunctionSignature,
    docs: Option<string>,
    deprecation: Option<Deprecation>)

  datatype ParsedField = ParsedField(
    name: string,
    visibility: Visibility,
    fieldType: RustType,
    docs: Option<string>,
    deprecation: Option<Deprecation>)

  datatype ParsedStruct = ParsedStruct(
    name: string,
    visibility: Visibility,
    generics: Generics,
    docs: Option<string>,
    deprecation: Option<Deprecation>,
    fields: seq<ParsedField>,
    methods: seq<ParsedFunction>,
    traitImpls: seq<ParsedTraitImpl>)

  datatype ParsedEnum = ParsedEnum(
    name: string,
    visibility: Visibility,
    generics: Generics,
    variants: seq<ParsedVariant>,
    docs: Option<string>,
    deprecation: Option<Deprecation>)

  datatype ParsedVariant = ParsedVariant(name: string, kind: VariantKind, docs: Option<string>)

  datatype VariantKind =
    | UnitVariant
    | TupleVariant(types: seq<RustType>)
    | StructVariant(fields: seq<(string, RustType)>)

  datatype ParsedTrait = ParsedTrait(
    name: string,
    visibility: Visibility,
    generics: Generics,
    items: seq<ParsedTraitItem>,
    docs: Option<string>,
    deprecation: Option<Deprecation>)

  datatype ParsedTraitItem =
    | AssocType(name: string, bounds: seq<string>, docs: Option<string>)
    | AssocConst(name: string, ty: RustType, docs: Option<string>)
    | Method(func: ParsedFunction)

  datatype ParsedTraitImpl = ParsedTraitImpl(
    traitPath: string,
    forType: RustType,
    items: seq<ParsedTraitImplItem>,
    docs: Option<string>)

  datatype ParsedTraitImplItem =
    | ImplAssocType(name: string, ty: RustType)
    | ImplMethod(func: ParsedFunction)

  datatype ParsedConstant = ParsedConstant(
    name: string,
    visibility: Visibility,
    ty: RustType,
    docs: Option<string>,
    deprecation: Option<Deprecation>)

  datatype ParsedModule = ParsedModule(
    name: string,
    visibility: Visibility,
    items: seq<ParsedItem>,
    docs: Option<string>)

  datatype ParsedMacro = ParsedMacro(signature: string, docs: Option<string>)

  datatype ParsedItem =
    | Function(func: ParsedFunction)
    | Struct(st: ParsedStruct)
    | Enum(en: ParsedEnum)
    | Trait(tr: ParsedTrait)
    | Constant(con: ParsedConstant)
    | Module(md: ParsedModule)
    | Macro(mac: ParsedMacro)
    | TraitImpl(imp: ParsedTraitImpl)
    /** Rendered by the renderer but absent from the parser's own enum. */
    | ReExport(path: string)
}
