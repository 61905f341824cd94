/** The documentation graph the parser reads: rustdoc's `Crate`, an index from
    item ids to items, and the JSON shape of the values the parser inspects.

    rustdoc serialises its enums externally tagged, so a JSON type value is an
    object with one key naming its shape; each constructor of `RawType` is one
    such key.  A field the parser looks up that may be absent, or may hold a
    JSON value of another kind than the one it asks for, is an `Option`.  A
    list the parser reads only when present and only for its matching
    elements is a `seq` holding those elements' shapes (absent reads as
    empty).  Item payloads (`RawInner`) are rustdoc's own typed records, whose
    fields are always present. */
module Raw {
  import opened Wrappers
  import opened Types

  /** rustdoc's `Id`: a number. */
  type Id = nat

  /** A JSON type value as `parse_type` inspects it. */
  datatype RawType =
    | RawNull
    | RawPrimitive(primitive: Option<string>)
    | RawGeneric(generic: Option<string>)
    | RawResolvedPath(path: Option<string>, args: seq<RawGenericArg>)
    | RawBorrowedRef(lifetime: Option<string>, isMutable: Option<bool>, ty: Option<RawType>)
    | RawTuple(elements: seq<RawType>)
    | RawSlice(elem: RawType)
    | RawArray(arrayType: Option<RawType>, len: Option<string>)
    | RawRawPointer(isMutable: Option<bool>, ty: Option<RawType>)
    | RawQualifiedPath(name: Option<string>)
    | RawDynTrait(lifetime: Option<string>, traits: seq<RawPolyTrait>)
    /** Any other JSON value: an object with none of the keys above (or whose
        `tuple` is not an array), a string, a number, an array. */
    | RawOther

  /** One element of `args.angle_bracketed.args`: a type argument, or a
      lifetime, const or inferred argument. */
  datatype RawGenericArg = TypeArg(ty: RawType) | OtherArg

  /** One element of a `dyn` type's `traits`: the trait's path, absent when the
      element has no `trait.path` string, and its associated-type constraints. */
  datatype RawPolyTrait = RawPolyTrait(path: Option<string>, constraints: seq<RawConstraint>)

  /** An associated-type constraint: its `name` and its `binding.equality.type`. */
  datatype RawConstraint = RawConstraint(name: Option<string>, equality: Option<RawType>)

  /** A generic bound: `trait_bound` with its trait's path, or any other bound
      (an outlives or `use` bound). */
  datatype RawBound = TraitBound(path: string) | OtherBound

  datatype RawParamKind =
    | KindType(bounds: seq<RawBound>)
    | KindLifetime
    | KindConst

  datatype RawParam = RawParam(name: string, kind: RawParamKind)

  datatype RawWherePredicate =
    | BoundPredicate(boundType: RawType, bounds: seq<RawBound>)
    /** A lifetime or equality predicate. */
    | OtherPredicate

  datatype RawGenerics = RawGenerics(params: seq<RawParam>, wherePredicates: seq<RawWherePredicate>)

  /** A function's payload; an absent return type is JSON `null`. */
  datatype RawFunctionData = RawFunctionData(
    generics: RawGenerics,
    inputs: seq<(string, RawType)>,
    output: RawType,
    isAsync: bool)

  datatype RawStructKind =
    | PlainStruct(fields: seq<Id>)
    | TupleStruct(tupleFields: seq<Option<Id>>)
    | UnitStruct

  datatype RawStructData = RawStructData(generics: RawGenerics, kind: RawStructKind, impls: seq<Id>)

  datatype RawVariantKind =
    | PlainVariant
    | TupleFields(tupleFields: seq<Option<Id>>)
    | StructFields(fields: seq<Id>)

  /** An impl block: `trait` is its trait's path when it implements one. */
  datatype RawImplData = RawImplData(
    isSynthetic: bool,
    blanketImpl: Option<RawType>,
    traitPath: Option<string>,
    forType: RawType,
    items: seq<Id>)

  /** `ItemEnum`: the kind-specific payload of an item. */
  datatype RawInner =
    | RawModule(items: seq<Id>)
    | RawFunction(funcData: RawFunctionData)
    | RawStruct(structData: RawStructData)
    | RawStructField(fieldType: RawType)
    | RawEnum(generics: RawGenerics, variants: seq<Id>)
    | RawVariant(variantKind: RawVariantKind)
    | RawTrait(generics: RawGenerics, items: seq<Id>)
    | RawConstant(constType: RawType)
    | RawMacro(text: string)
    | RawImpl(implData: RawImplData)
    | RawAssocType(assocType: Option<RawType>)
    | RawAssocConst(constType: RawType)
    /** Imports, type aliases, statics and every other kind the parser skips. */
    | RawOtherItem

  datatype RawItem = RawItem(
    name: Option<string>,
    visibility: Visibility,
    docs: Option<string>,
    attrs: seq<string>,
    deprecation: Option<Deprecation>,
    inner: RawInner)

  /** rustdoc's `Crate`: the root module's id and the item index. */
  datatype Crate = Crate(root: Id, index: map<Id, RawItem>)
}
