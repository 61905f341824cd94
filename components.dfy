/** The rendering helpers shared by every item render: visibility, generics
    and `where` clauses, doc comments, deprecation notices and indentation
    (src/renderer/components.rs).

    A render's text is a sequence of lines, each written followed by `"\n"`
    (`Strings.ConcatLines`); the helpers that emit whole lines return them as
    a `seq<string>`. */
module Components {
  import opened Wrappers
  import opened Strings
  import opened Types
  import opened RenderContexts

  // ---------------------------------------------------------------------
  // TypeRenderer

  /** `render_visibility`: a keyword prefix, followed by a space when not
      empty. */
  function RenderVisibility(v: Visibility): (r: string)
    ensures r == "" <==> v == Default
    ensures r != "" ==> |r| >= 4 && r[..3] == "pub" && r[|r| - 1] == ' '
  {
    match v
    case Public => "pub "
    case Crate => "pub(crate) "
    case Restricted(path) => "pub(" + path + ") "
    case Default => ""
  }

  /** Distinct visibilities render differently, except that `pub(crate)`
      written as a restriction to the path `crate` reads like `Crate`. */
  lemma VisibilityDistinct(a: Visibility, b: Visibility)
    ensures RenderVisibility(a) == RenderVisibility(b) <==>
      a == b || (a == Crate && b == Restricted("crate")) || (a == Restricted("crate") && b == Crate)
  {
    var ra, rb := RenderVisibility(a), RenderVisibility(b);
    if ra == rb {
      if a.Restricted? && b.Restricted? {
        assert a.path == ra[4..|ra| - 2];
        assert b.path == rb[4..|rb| - 2];
      } else if a.Restricted? && b.Crate? {
        assert a.path == ra[4..|ra| - 2];
      } else if a.Crate? && b.Restricted? {
        assert b.path == rb[4..|rb| - 2];
      } else if a.Public? || b.Public? {
        assert ra[3] == rb[3];
      }
    }
  }

  /** One generic parameter: a type parameter with its bounds, a lifetime
      with its leading apostrophe, or a const parameter with its type. */
  function ParamText(p: GenericParam): string
  {
    match p.kind
    case TypeParam(bounds) => if |bounds| == 0 then p.name else p.name + ": " + Join(bounds, " + ")
    case LifetimeParam => if |p.name| > 0 && p.name[0] == '\'' then p.name else "'" + p.name
    case ConstParam(ty) => "const " + p.name + ": " + Display(ty)
  }

  function ParamTexts(ps: seq<GenericParam>): (r: seq<string>)
    ensures |r| == |ps|
    ensures forall i | 0 <= i < |ps| :: r[i] == ParamText(ps[i])
  {
    if |ps| == 0 then [] else ParamTexts(ps[..|ps| - 1]) + [ParamText(ps[|ps| - 1])]
  }

  /** A lifetime always renders with exactly one leading apostrophe: writing
      a rendered lifetime again changes nothing. */
  lemma LifetimeApostrophe(p: GenericParam)
    requires p.kind.LifetimeParam?
    ensures ParamText(p)[0] == '\''
    ensures ParamText(GenericParam(ParamText(p), LifetimeParam)) == ParamText(p)
    ensures (|p.name| > 0 && p.name[0] == '\'') <==> ParamText(p) == p.name
  {
  }

  /** A type parameter renders as its name, followed by its bounds when it
      has any. */
  lemma TypeParamText(p: GenericParam)
    requires p.kind.TypeParam?
    ensures p.name <= ParamText(p)
    ensures ParamText(p) == p.name <==> |p.kind.bounds| == 0
  {
  }

  /** `render_generics`: nothing without parameters, else the parameters in
      angle brackets. */
  function RenderGenerics(g: Generics): (r: string)
    ensures r == "" <==> |g.params| == 0
    ensures |g.params| > 0 ==> r[0] == '<' && r[|r| - 1] == '>' && r[1..|r| - 1] == Join(ParamTexts(g.params), ", ")
  {
    if |g.params| == 0 then "" else "<" + Join(ParamTexts(g.params), ", ") + ">"
  }

  /** `render_where_clause`: nothing without clauses, else `" where "`
      followed by the clauses separated by commas. */
  function RenderWhereClause(g: Generics): (r: string)
    ensures r == "" <==> |g.whereClauses| == 0
    ensures |g.whereClauses| > 0 ==> |r| >= 7 && r[..7] == " where " && r[7..] == Join(g.whereClauses, ", ")
  {
    if |g.whereClauses| == 0 then "" else " where " + Join(g.whereClauses, ", ")
  }

  // ---------------------------------------------------------------------
  // DocRenderer

  /** One doc comment line: `///` alone for a blank line, else `/// ` and
      the line. */
  function DocLine(line: string, indent: string): string
  {
    if IsBlank(line) then indent + "///" else indent + "/// " + line
  }

  function DocLinesOf(ls: seq<string>, indent: string): (r: seq<string>)
    ensures |r| == |ls|
    ensures forall i | 0 <= i < |ls| :: r[i] == DocLine(ls[i], indent)
  {
    if |ls| == 0 then [] else DocLinesOf(ls[..|ls| - 1], indent) + [DocLine(ls[|ls| - 1], indent)]
  }

  /** The lines `render_docs` writes: nothing without docs, else one comment
      line per line of the docs. */
  function DocLines(docs: Option<string>, indent: string): seq<string>
  {
    match docs
    case None => []
    case Some(d) => DocLinesOf(Lines(d), indent)
  }

  /** Doc comments keep the docs line by line: each starts with the
      indentation and `///`, a blank line gets no trailing space, and the
      text of every other line follows `/// ` unchanged. */
  lemma DocLinesShape(docs: Option<string>, indent: string)
    ensures docs.None? ==> DocLines(docs, indent) == []
    ensures docs.Some? ==> |DocLines(docs, indent)| == |Lines(docs.value)|
    ensures forall i | 0 <= i < |DocLines(docs, indent)| :: indent + "///" <= DocLines(docs, indent)[i]
    ensures forall i | 0 <= i < |DocLines(docs, indent)| :: DocLines(docs, indent)[i] != indent + "/// "
    ensures docs.Some? ==> forall i | 0 <= i < |Lines(docs.value)| ::
      if IsBlank(Lines(docs.value)[i]) then DocLines(docs, indent)[i] == indent + "///"
      else DocLines(docs, indent)[i][|indent| + 4..] == Lines(docs.value)[i]
  {
    if docs.Some? {
      var ls := Lines(docs.value);
      forall i | 0 <= i < |ls|
        ensures DocLines(docs, indent)[i] != indent + "/// "
        ensures !IsBlank(ls[i]) ==> DocLines(docs, indent)[i][|indent| + 4..] == ls[i]
      {
        if !IsBlank(ls[i]) {
          assert |ls[i]| > 0;
          assert (indent + "/// " + ls[i])[|indent| + 4..] == ls[i];
        }
      }
    }
  }

  /** `render_docs`: the loop over the lines of the docs. */
  method RenderDocs(docs: Option<string>, indent: string) returns (out: string)
    ensures out == ConcatLines(DocLines(docs, indent))
  {
    if docs.None? {
      return "";
    }
    var ls := Lines(docs.value);
    out := "";
    var i := 0;
    while i < |ls|
      invariant 0 <= i <= |ls|
      invariant out == ConcatLines(DocLinesOf(ls[..i], indent))
    {
      assert ls[..i + 1][..i] == ls[..i];
      if IsBlank(ls[i]) {
        out := out + (indent + "///") + "\n";
      } else {
        out := out + (indent + "/// " + ls[i]) + "\n";
      }
      i := i + 1;
    }
    assert ls[..|ls|] == ls;
  }

  /** `render_deprecation`: no line without a marker, else one line naming
      the version when the marker has one. */
  function DeprecationLines(dep: Option<Deprecation>, indent: string): (r: seq<string>)
    ensures dep.None? <==> r == []
    ensures dep.Some? ==> |r| == 1 && indent + "DEPRECATED" <= r[0]
    ensures dep.Some? && dep.value.since.Some? ==> r[0][|indent| + 10..] == " since " + dep.value.since.value
    ensures dep.Some? && dep.value.since.None? ==> r[0] == indent + "DEPRECATED"
  {
    match dep
    case None => []
    case Some(d) =>
      match d.since
      case Some(v) => [indent + "DEPRECATED since " + v]
      case None => [indent + "DEPRECATED"]
  }

  // ---------------------------------------------------------------------
  // IndentationHelper

  /** `indent_for_depth`: the indentation of a context at that depth. */
  function IndentForDepth(d: nat): (r: string)
    ensures r == New().WithDepth(d).Indent()
    ensures |r| == 2 * d
  {
    Repeat("  ", d)
  }
}
