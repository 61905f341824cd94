/** `ItemParser::parse_generics`: type and lifetime parameters with their
    trait bounds, and `where` clauses built from bound predicates
    (src/parser/parser.rs:344-423). */
module GenericsResolver {
  import opened Wrappers
  import opened Strings
  import opened Lists
  import opened Types
  import opened Raw

  /** The path of a trait bound; other bounds are skipped. */
  function BoundPath(b: RawBound): Option<string>
  {
    match b
    case TraitBound(p) => Some(p)
    case OtherBound => None
  }

  function BoundPaths(bounds: seq<RawBound>): seq<string>
  {
    FilterMap(bounds, BoundPath)
  }

  /** A type parameter with its bounds, or a lifetime; const parameters are
      not kept. */
  function ParamOf(p: RawParam): Option<GenericParam>
  {
    match p.kind
    case KindType(bounds) => Some(GenericParam(p.name, TypeParam(BoundPaths(bounds))))
    case KindLifetime => Some(GenericParam(p.name, LifetimeParam))
    case KindConst => None
  }

  /** The name a `where` entry constrains: the generic's name, else `Self`. */
  function ConstrainedName(t: RawType): string
  {
    if t.RawGeneric? && t.generic.Some? then t.generic.value else "Self"
  }

  /** `T: B1 + B2` for a bound predicate with at least one trait bound. */
  function WhereClauseOf(w: RawWherePredicate): Option<string>
  {
    match w
    case BoundPredicate(t, bounds) =>
      var paths := BoundPaths(bounds);
      if |paths| == 0 then None else Some(ConstrainedName(t) + ": " + Join(paths, " + "))
    case OtherPredicate => None
  }

  function GenericsOf(g: RawGenerics): Generics
  {
    Generics(FilterMap(g.params, ParamOf), FilterMap(g.wherePredicates, WhereClauseOf))
  }

  /** The loop over a parameter's or predicate's `bounds`. */
  method ParseBounds(bounds: seq<RawBound>) returns (paths: seq<string>)
    ensures paths == BoundPaths(bounds)
  {
    paths := [];
    var i := 0;
    while i < |bounds|
      invariant 0 <= i <= |bounds|
      invariant paths == FilterMap(bounds[..i], BoundPath)
    {
      assert bounds[..i + 1][..i] == bounds[..i];
      match bounds[i] {
        case TraitBound(p) => paths := paths + [p];
        case OtherBound =>
      }
      i := i + 1;
    }
    assert bounds[..|bounds|] == bounds;
  }

  method ParseGenerics(g: RawGenerics) returns (r: Generics)
    ensures r == GenericsOf(g)
  {
    var params: seq<GenericParam> := [];
    var i := 0;
    while i < |g.params|
      invariant 0 <= i <= |g.params|
      invariant params == FilterMap(g.params[..i], ParamOf)
    {
      assert g.params[..i + 1][..i] == g.params[..i];
      var p := g.params[i];
      match p.kind {
        case KindType(bs) =>
          var bounds := ParseBounds(bs);
          params := params + [GenericParam(p.name, TypeParam(bounds))];
        case KindLifetime =>
          params := params + [GenericParam(p.name, LifetimeParam)];
        case KindConst =>
      }
      i := i + 1;
    }
    assert g.params[..|g.params|] == g.params;

    var whereClauses: seq<string> := [];
    var j := 0;
    while j < |g.wherePredicates|
      invariant 0 <= j <= |g.wherePredicates|
      invariant whereClauses == FilterMap(g.wherePredicates[..j], WhereClauseOf)
    {
      assert g.wherePredicates[..j + 1][..j] == g.wherePredicates[..j];
      match g.wherePredicates[j] {
        case BoundPredicate(t, bs) =>
          var typeName := if t.RawGeneric? && t.generic.Some? then t.generic.value else "Self";
          var bounds := ParseBounds(bs);
          if |bounds| > 0 {
            whereClauses := whereClauses + [typeName + ": " + Join(bounds, " + ")];
          }
        case OtherPredicate =>
      }
      j := j + 1;
    }
    assert g.wherePredicates[..|g.wherePredicates|] == g.wherePredicates;
    r := Generics(params, whereClauses);
  }

  /** A parameter `parse_generics` keeps: any but a const parameter. */
  function KeepNonConst(p: RawParam): Option<RawParam>
  {
    if p.kind.KindConst? then None else Some(p)
  }

  /** Parameters keep their input order: the `i`-th parameter out is the
      `i`-th non-const parameter in, with its name, and its trait-bound paths
      for a type parameter or no bounds for a lifetime; with no const
      parameter, every parameter is kept. */
  lemma ParamsInOrder(g: RawGenerics)
    ensures var kept := FilterMap(g.params, KeepNonConst);
      |GenericsOf(g).params| == |kept|
      && forall i | 0 <= i < |kept| ::
        GenericsOf(g).params[i].name == kept[i].name
        && (kept[i].kind.KindType? ==>
              GenericsOf(g).params[i].kind == TypeParam(BoundPaths(kept[i].kind.bounds)))
        && (kept[i].kind.KindLifetime? ==> GenericsOf(g).params[i].kind == LifetimeParam)
    ensures (forall i | 0 <= i < |g.params| :: !g.params[i].kind.KindConst?) ==>
      |GenericsOf(g).params| == |g.params|
  {
    var kept := FilterMap(g.params, KeepNonConst);
    ParamsSkipConst(g.params);
    forall i | 0 <= i < |kept| ensures ParamOf(kept[i]).Some? {
      FilterMapMember(g.params, KeepNonConst, kept[i]);
    }
    FilterMapAllSome(kept, ParamOf);
    if forall i | 0 <= i < |g.params| :: !g.params[i].kind.KindConst? {
      FilterMapAllSome(g.params, KeepNonConst);
    }
  }

  /** Parsing the parameters is parsing the non-const ones. */
  lemma {:induction false} ParamsSkipConst(ps: seq<RawParam>)
    ensures FilterMap(ps, ParamOf) == FilterMap(FilterMap(ps, KeepNonConst), ParamOf)
  {
    if |ps| > 0 {
      var init, last := ps[..|ps| - 1], ps[|ps| - 1];
      ParamsSkipConst(init);
      if !last.kind.KindConst? {
        FilterMapAppend(FilterMap(init, KeepNonConst), [last], ParamOf);
        assert [last][..0] == [];
      }
    }
  }

  /** A const parameter anywhere in the list contributes nothing. */
  lemma ConstParamDropped(a: seq<RawParam>, c: RawParam, b: seq<RawParam>)
    requires c.kind.KindConst?
    ensures FilterMap(a + [c] + b, ParamOf) == FilterMap(a + b, ParamOf)
  {
    FilterMapAppend(a + [c], b, ParamOf);
    FilterMapAppend(a, [c], ParamOf);
    FilterMapAppend(a, b, ParamOf);
    assert [c][..0] == [];
  }

  /** A bound list of trait bounds only gives their paths, in order; in
      general a path is kept exactly when some trait bound carries it. */
  lemma BoundPathsInOrder(bounds: seq<RawBound>, p: string)
    ensures (forall i | 0 <= i < |bounds| :: bounds[i].TraitBound?) ==>
      |BoundPaths(bounds)| == |bounds|
      && forall i | 0 <= i < |bounds| :: BoundPaths(bounds)[i] == bounds[i].path
    ensures p in BoundPaths(bounds) <==> TraitBound(p) in bounds
  {
    if forall i | 0 <= i < |bounds| :: bounds[i].TraitBound? {
      FilterMapAllSome(bounds, BoundPath);
    }
    FilterMapMember(bounds, BoundPath, p);
    if TraitBound(p) in bounds {
      var i :| 0 <= i < |bounds| && bounds[i] == TraitBound(p);
      assert BoundPath(bounds[i]) == Some(p);
    }
  }

  /** A `where` entry is emitted exactly for a bound predicate with at least
      one trait bound, and then reads `T: B1 + B2`, with `Self` for a
      constrained type that is not a generic. */
  lemma WhereClauseEmitted(w: RawWherePredicate)
    ensures WhereClauseOf(w).Some? <==>
      w.BoundPredicate? && exists i | 0 <= i < |w.bounds| :: w.bounds[i].TraitBound?
    ensures WhereClauseOf(w).Some? ==>
      WhereClauseOf(w).value == ConstrainedName(w.boundType) + ": " + Join(BoundPaths(w.bounds), " + ")
    ensures w.BoundPredicate? && !(w.boundType.RawGeneric? && w.boundType.generic.Some?) ==>
      ConstrainedName(w.boundType) == "Self"
  {
    if w.BoundPredicate? {
      FilterMapEmpty(w.bounds, BoundPath);
    }
  }
}
