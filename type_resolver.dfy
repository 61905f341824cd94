/** `ItemParser::parse_type`: the total resolver from a JSON type value to a
    `RustType` (src/parser/parser.rs:164-342). */
module TypeResolver {
  import opened Wrappers
  import opened Strings
  import opened Types
  import opened Raw

  const CratePrefix := "$crate::"

  /** The `$crate::` normalisation applied to every resolved path. */
  function NormalizeCratePath(path: string): string
  {
    if CratePrefix <= path then
      if path == "$crate::fmt::Formatter" then "std::fmt::Formatter"
      else if path == "$crate::fmt::Result" then "std::fmt::Result"
      else if path == "$crate::clone::Clone" then "Clone"
      else if path == "$crate::cmp::PartialEq" then "PartialEq"
      else Replace(path, CratePrefix, "std::")
    else path
  }

  /** The size written between `;` and `]`: the array's `len` text, or `N`
      when the value has no `len`. */
  function ArrayLen(len: Option<string>): string
  {
    match len
    case Some(l) => l
    case None => "N"
  }

  function ParseType(t: RawType): RustType
    decreases t, 2
  {
    match t
    case RawNull => Unit
    case RawPrimitive(p) => if p.Some? then Primitive(p.value) else Unknown
    case RawGeneric(g) => if g.Some? then Generic(g.value) else Unknown
    case RawResolvedPath(p, args) => Path(NormalizeCratePath(p.GetOr("unknown")), TypeArgs(args))
    case RawBorrowedRef(lt, m, ty) =>
      Reference(lt, m.GetOr(false), if ty.Some? then ParseType(ty.value) else Unknown)
    case RawTuple(es) => if |es| == 0 then Unit else Tuple(ParseTypes(es))
    case RawSlice(elem) => Slice(ParseType(elem))
    case RawArray(ty, len) => if ty.Some? then Array(ParseType(ty.value), ArrayLen(len)) else Unknown
    case RawRawPointer(m, ty) => RawPointer(m.GetOr(false), if ty.Some? then ParseType(ty.value) else Unknown)
    case RawQualifiedPath(n) => if n.Some? then QualifiedPath("Self", n.value) else Unknown
    case RawDynTrait(lt, traits) => DynTrait(DynTraitNames(traits), lt)
    case RawOther => Unknown
  }

  /** The tuple elements, each resolved. */
  function ParseTypes(ts: seq<RawType>): (r: seq<RustType>)
    ensures |r| == |ts|
    ensures forall i | 0 <= i < |ts| :: r[i] == ParseType(ts[i])
    decreases ts, 1
  {
    if |ts| == 0 then [] else [ParseType(ts[0])] + ParseTypes(ts[1..])
  }

  /** The type arguments among a path's angle-bracketed arguments, in order. */
  function TypeArgs(args: seq<RawGenericArg>): seq<RustType>
    decreases args, 1
  {
    if |args| == 0 then [] else TypeArgOf(args[0]) + TypeArgs(args[1..])
  }

  function TypeArgOf(arg: RawGenericArg): seq<RustType>
    decreases arg, 0
  {
    match arg
    case TypeArg(ty) => [ParseType(ty)]
    case OtherArg => []
  }

  /** The names of a `dyn` type's traits: each trait that has a path, in order. */
  function DynTraitNames(traits: seq<RawPolyTrait>): seq<string>
    decreases traits, 1
  {
    if |traits| == 0 then [] else DynTraitName(traits[0]) + DynTraitNames(traits[1..])
  }

  /** A trait's path followed by its `Name = Type` constraints, if it has any. */
  function DynTraitName(p: RawPolyTrait): seq<string>
    decreases p, 0
  {
    if p.path.None? then []
    else
      var cs := ConstraintTexts(p.constraints);
      [p.path.value + (if |cs| == 0 then "" else "<" + Join(cs, ", ") + ">")]
  }

  /** `Name = Type` for each constraint that has both a name and an equality type. */
  function ConstraintTexts(cs: seq<RawConstraint>): seq<string>
    decreases cs, 1
  {
    if |cs| == 0 then [] else ConstraintText(cs[0]) + ConstraintTexts(cs[1..])
  }

  function ConstraintText(c: RawConstraint): seq<string>
    decreases c, 0
  {
    if c.name.Some? && c.equality.Some? then [c.name.value + " = " + Display(ParseType(c.equality.value))]
    else []
  }

  /** The shapes that resolve to `Unknown`: a value with no recognised key, or
      a recognised key whose value lacks the one field that shape needs. */
  predicate Unrecognised(t: RawType)
  {
    t.RawOther?
    || (t.RawPrimitive? && t.primitive.None?)
    || (t.RawGeneric? && t.generic.None?)
    || (t.RawArray? && t.arrayType.None?)
    || (t.RawQualifiedPath? && t.name.None?)
  }

  /** `null` and the empty tuple, and nothing else, resolve to `Unit`. */
  lemma ParseTypeUnit(t: RawType)
    ensures ParseType(t) == Unit <==> t == RawNull || t == RawTuple([])
  {
  }

  /** `Unknown` is the fallback for unrecognised shapes and only for them. */
  lemma ParseTypeUnknown(t: RawType)
    ensures ParseType(t) == Unknown <==> Unrecognised(t)
  {
  }

  /** The defaults for fields a recognised shape may lack. */
  lemma ParseTypeDefaults(t: RawType)
    ensures t.RawResolvedPath? && t.path.None? ==> ParseType(t).path == "unknown"
    ensures (t.RawBorrowedRef? || t.RawRawPointer?) && t.isMutable.None? ==> !ParseType(t).mutable
    ensures (t.RawBorrowedRef? || t.RawRawPointer?) && t.ty.None? ==> ParseType(t).inner == Unknown
    ensures t.RawArray? && t.arrayType.Some? && t.len.None? ==> ParseType(t).size == "N"
  {
  }

  /** The four paths with fixed replacements. */
  lemma NormalizeFixed()
    ensures NormalizeCratePath("$crate::fmt::Formatter") == "std::fmt::Formatter"
    ensures NormalizeCratePath("$crate::fmt::Result") == "std::fmt::Result"
    ensures NormalizeCratePath("$crate::clone::Clone") == "Clone"
    ensures NormalizeCratePath("$crate::cmp::PartialEq") == "PartialEq"
  {
  }

  /** Any other `$crate::` path has, as `str::replace` does, every
      occurrence of `$crate::` replaced by `std::`: the leading one and each
      later one in the rest; a rest without one is kept as it is. */
  lemma {:induction false} NormalizeCrateRest(rest: string)
    requires rest !in {"fmt::Formatter", "fmt::Result", "clone::Clone", "cmp::PartialEq"}
    ensures NormalizeCratePath(CratePrefix + rest) == "std::" + Replace(rest, CratePrefix, "std::")
    ensures IndexOf(rest, CratePrefix).None? ==> NormalizeCratePath(CratePrefix + rest) == "std::" + rest
  {
    var path := CratePrefix + rest;
    assert CratePrefix <= path;
    assert path[|CratePrefix|..] == rest;
    assert "$crate::fmt::Formatter" == CratePrefix + "fmt::Formatter";
    assert "$crate::fmt::Result" == CratePrefix + "fmt::Result";
    assert "$crate::clone::Clone" == CratePrefix + "clone::Clone";
    assert "$crate::cmp::PartialEq" == CratePrefix + "cmp::PartialEq";
    PrefixCancel(CratePrefix, rest, "fmt::Formatter");
    PrefixCancel(CratePrefix, rest, "fmt::Result");
    PrefixCancel(CratePrefix, rest, "clone::Clone");
    PrefixCancel(CratePrefix, rest, "cmp::PartialEq");
    assert Replace(path, CratePrefix, "std::") == "std::" + Replace(rest, CratePrefix, "std::");
    if IndexOf(rest, CratePrefix).None? {
      ReplaceWithoutOccurrence(rest, CratePrefix, "std::");
    }
  }

  lemma PrefixCancel(p: string, a: string, b: string)
    ensures p + a == p + b ==> a == b
  {
    if p + a == p + b {
      assert a == (p + a)[|p|..];
      assert b == (p + b)[|p|..];
    }
  }

  /** Paths without the prefix are left as they are. */
  lemma NormalizeUnprefixed(path: string)
    requires !(CratePrefix <= path)
    ensures NormalizeCratePath(path) == path
  {
  }

  /** The JSON value rustdoc writes for a type, in the shape `parse_type` reads. */
  function RawOf(t: RustType): RawType
    decreases t, 1
  {
    match t
    case Primitive(n) => RawPrimitive(Some(n))
    case Generic(n) => RawGeneric(Some(n))
    case Reference(lt, m, inner) => RawBorrowedRef(lt, Some(m), Some(RawOf(inner)))
    case Tuple(es) => RawTuple(RawOfAll(es))
    case Slice(inner) => RawSlice(RawOf(inner))
    case Array(inner, size) => RawArray(Some(RawOf(inner)), Some(size))
    case Path(p, gs) => RawResolvedPath(Some(p), RawArgsOf(gs))
    case RawPointer(m, inner) => RawRawPointer(Some(m), Some(RawOf(inner)))
    case QualifiedPath(_, n) => RawQualifiedPath(Some(n))
    case DynTrait(trs, lt) => RawDynTrait(lt, RawPolyTraitsOf(trs))
    case Unit => RawNull
    case Unknown => RawOther
  }

  function RawOfAll(ts: seq<RustType>): (r: seq<RawType>)
    ensures |r| == |ts|
    decreases ts, 0
  {
    if |ts| == 0 then [] else [RawOf(ts[0])] + RawOfAll(ts[1..])
  }

  function RawArgsOf(ts: seq<RustType>): (r: seq<RawGenericArg>)
    decreases ts, 0
  {
    if |ts| == 0 then [] else [TypeArg(RawOf(ts[0]))] + RawArgsOf(ts[1..])
  }

  function RawPolyTraitsOf(names: seq<string>): seq<RawPolyTrait>
  {
    if |names| == 0 then [] else [RawPolyTrait(Some(names[0]), [])] + RawPolyTraitsOf(names[1..])
  }

  /** The types the resolver can produce from rustdoc output without loss:
      no empty tuple, no untranslated `$crate::` path, and
      qualified paths on `Self`. */
  predicate Canonical(t: RustType)
    decreases t, 1
  {
    match t
    case Reference(_, _, inner) => Canonical(inner)
    case Tuple(es) => |es| > 0 && AllCanonical(es)
    case Slice(inner) => Canonical(inner)
    case Array(inner, _) => Canonical(inner)
    case Path(p, gs) => !(CratePrefix <= p) && AllCanonical(gs)
    case RawPointer(_, inner) => Canonical(inner)
    case QualifiedPath(b, _) => b == "Self"
    case Primitive(_) => true
    case Generic(_) => true
    case DynTrait(_, _) => true
    case Unit => true
    case Unknown => true
  }

  predicate AllCanonical(ts: seq<RustType>)
    decreases ts, 0
  {
    forall i | 0 <= i < |ts| :: Canonical(ts[i])
  }

  /** Round trip: resolving what rustdoc writes for a canonical type gives
      back that type. */
  lemma {:induction false} ParseRawOf(t: RustType)
    requires Canonical(t)
    ensures ParseType(RawOf(t)) == t
    decreases t, 1
  {
    match t
    case Reference(_, _, inner) => ParseRawOf(inner);
    case Tuple(es) => ParseRawOfAll(es);
    case Slice(inner) => ParseRawOf(inner);
    case Array(inner, _) => ParseRawOf(inner);
    case Path(p, gs) =>
      TypeArgsRawArgsOf(gs);
    case RawPointer(_, inner) => ParseRawOf(inner);
    case DynTrait(trs, _) => DynTraitNamesRawOf(trs);
    case Primitive(_) =>
    case Generic(_) =>
    case QualifiedPath(_, _) =>
    case Unit =>
    case Unknown =>
  }

  lemma {:induction false} ParseRawOfAll(ts: seq<RustType>)
    requires AllCanonical(ts)
    ensures ParseTypes(RawOfAll(ts)) == ts
    decreases ts, 0
  {
    if |ts| > 0 {
      ParseRawOf(ts[0]);
      ParseRawOfAll(ts[1..]);
      assert RawOfAll(ts)[1..] == RawOfAll(ts[1..]);
    }
  }

  lemma {:induction false} TypeArgsRawArgsOf(ts: seq<RustType>)
    requires AllCanonical(ts)
    ensures TypeArgs(RawArgsOf(ts)) == ts
    decreases ts, 0
  {
    if |ts| > 0 {
      ParseRawOf(ts[0]);
      TypeArgsRawArgsOf(ts[1..]);
      var args := RawArgsOf(ts);
      assert args[0] == TypeArg(RawOf(ts[0]));
      assert args[1..] == RawArgsOf(ts[1..]);
    }
  }

  lemma {:induction false} DynTraitNamesRawOf(names: seq<string>)
    ensures DynTraitNames(RawPolyTraitsOf(names)) == names
  {
    if |names| > 0 {
      DynTraitNamesRawOf(names[1..]);
      var ps := RawPolyTraitsOf(names);
      assert ps[1..] == RawPolyTraitsOf(names[1..]);
      assert ConstraintTexts(ps[0].constraints) == [];
      assert DynTraitName(ps[0]) == [names[0] + ""];
      assert names[0] + "" == names[0];
      assert names == [names[0]] + names[1..];
    }
  }

  /** The hexadecimal digit of `d`, lower case as serde_json writes it. */
  function HexDigit(d: nat): char
    requires d < 16
  {
    "0123456789abcdef"[d]
  }

  /** How serde_json writes one character inside a JSON string. */
  function JsonEscapeChar(c: char): string
  {
    if c == '"' then "\\\""
    else if c == '\\' then "\\\\"
    else if c == '\n' then "\\n"
    else if c == '\r' then "\\r"
    else if c == '\t' then "\\t"
    else if c == '\U{8}' then "\\b"
    else if c == '\U{C}' then "\\f"
    else if (c as int) < 0x20 then "\\u00" + [HexDigit((c as int) / 16), HexDigit((c as int) % 16)]
    else [c]
  }

  function JsonEscape(s: string): string
  {
    if |s| == 0 then "" else JsonEscapeChar(s[0]) + JsonEscape(s[1..])
  }

  /** `l.to_string()` on a JSON string value: the string as a JSON literal. */
  function JsonStringLiteral(s: string): (r: string)
    ensures |r| >= |s| + 2 && r[0] == '"' && r[|r| - 1] == '"'
  {
    JsonEscapeLength(s);
    "\"" + JsonEscape(s) + "\""
  }

  lemma {:induction false} JsonEscapeLength(s: string)
    ensures |JsonEscape(s)| >= |s|
  {
    if |s| > 0 {
      JsonEscapeLength(s[1..]);
    }
  }

  /** The array size as src/parser/parser.rs:264-267 computes it: rustdoc's
      `len` is a JSON string, and `Value::to_string` writes it with quotes. */
  function ArrayLenAsWritten(len: Option<string>): string
  {
    match len
    case Some(l) => JsonStringLiteral(l)
    case None => "N"
  }

  /** An array of four bytes is written `[u8; "4"]` as the code stands. */
  lemma ArrayLenAsWrittenQuotes()
    ensures ArrayLenAsWritten(Some("4")) == "\"4\""
    ensures "[u8; " + ArrayLenAsWritten(Some("4")) + "]" == "[u8; \"4\"]"
  {
    assert JsonEscape("4") == "4";
  }

  /** As written, no present length is ever printed as itself. */
  lemma ArrayLenAsWrittenNeverPlain(l: string)
    ensures ArrayLenAsWritten(Some(l)) != l
  {
  }

  /** Corrected: the size printed is the length text itself, so rustdoc's
      `[u8; 4]` is rendered `[u8; 4]`. */
  lemma ArrayDisplaysLen(elem: RawType, l: string)
    ensures Display(ParseType(RawArray(Some(elem), Some(l)))) == "[" + Display(ParseType(elem)) + "; " + l + "]"
    ensures Display(ParseType(RawArray(Some(RawPrimitive(Some("u8"))), Some("4")))) == "[u8; 4]"
  {
  }
}
