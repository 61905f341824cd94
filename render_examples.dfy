/** Renders of example items the repository's own tests use
    (src/tests/mod.rs), computed from the render functions. */
module RenderExamples {
  import opened Wrappers
  import opened Strings
  import opened Types
  import opened RenderContexts
  import opened Components
  import opened Renders

  lemma ParamTextsPair(a: GenericParam, b: GenericParam)
    ensures ParamTexts([a, b]) == [ParamText(a), ParamText(b)]
  {
  }

  lemma JoinPair(a: string, b: string, sep: string)
    ensures Join([a, b], sep) == a + sep + b
  {
  }

  lemma IndentOne()
    ensures New().WithDepth(1).Indent() == "  "
  {
  }

  lemma PrefixTrans(a: string, b: string, c: string)
    requires a <= b && b <= c
    ensures a <= c
  {
    assert c[..|a|] == b[..|a|];
  }

  lemma PrefixUnder(ind: string, a: string, b: string)
    requires a <= b
    ensures ind + a <= ind + b
  {
    assert (ind + b)[..|ind + a|] == ind + b[..|a|];
  }

  function CacheStruct(): ParsedStruct
  {
    ParsedStruct("Cache", Public,
      Generics([GenericParam("'a", LifetimeParam), GenericParam("T", TypeParam(["Cacheable"]))], []),
      None, None, [], [], [])
  }

  lemma CacheGenerics()
    ensures RenderGenerics(CacheStruct().generics) == "<'a, T: Cacheable>"
  {
    assert "<" + ("'a" + ", " + "T: Cacheable") + ">" == "<'a, T: Cacheable>";
    var g := CacheStruct().generics;
    ParamTextsPair(g.params[0], g.params[1]);
    assert ParamText(g.params[0]) == "'a";
    assert Join(["Cacheable"], " + ") == "Cacheable";
    assert "T" + ": " + "Cacheable" == "T: Cacheable";
    assert ParamText(g.params[1]) == "T: Cacheable";
    JoinPair("'a", "T: Cacheable", ", ");
    assert Join(ParamTexts(g.params), ", ") == "'a" + ", " + "T: Cacheable";
  }

  lemma CacheHeader()
    ensures StructHeader(CacheStruct()) == "pub struct Cache<'a, T: Cacheable> {"
  {
    assert "pub " + "struct " + "Cache" + "<'a, T: Cacheable>" + "" + " {" == "pub struct Cache<'a, T: Cacheable> {";
    CacheGenerics();
    assert RenderVisibility(Public) == "pub ";
    assert StructWhereText(CacheStruct()) == "";
  }

  /** A struct with a lifetime and a bounded type parameter keeps the bound
      in its header: at depth 1 it is the header, the brace and a blank
      line. */
  lemma CacheStructRender()
    ensures StructLines(CacheStruct(), New().WithDepth(1)) == ["  pub struct Cache<'a, T: Cacheable> {", "  }", ""]
  {
    assert "  " + "pub struct Cache<'a, T: Cacheable> {" == "  pub struct Cache<'a, T: Cacheable> {";
    assert "  " + "}" == "  }";
    StructWithoutMembers(CacheStruct(), New().WithDepth(1));
    IndentOne();
    CacheHeader();
  }

  function HttpErrorImpl(): ParsedTraitImpl
  {
    ParsedTraitImpl("Error", Path("HttpError", []), [], None)
  }

  lemma HttpErrorSignature()
    ensures ImplSignature(HttpErrorImpl()) == "impl Error for HttpError"
  {
    assert Display(Path("HttpError", [])) == "HttpError";
  }

  lemma HttpErrorImplLines()
    ensures TraitImplLines(HttpErrorImpl(), New().WithDepth(1))
      == ["  " + GeneratedImplDoc(HttpErrorImpl()), "  impl Error for HttpError", ""]
  {
    assert "  " + "impl Error for HttpError" == "  impl Error for HttpError";
    IndentOne();
    HttpErrorSignature();
    EmptyImplUnbraced(HttpErrorImpl(), New().WithDepth(1));
    GeneratedDocLine(HttpErrorImpl(), "  ");
  }

  lemma ImplLiterals()
    ensures "  " + "///" == "  ///"
  {
  }

  /** A trait impl without items, at depth 1: a generated doc line, the impl
      line without a brace, and a blank line. */
  lemma EmptyTraitImplRender()
    ensures var ls := TraitImplLines(HttpErrorImpl(), New().WithDepth(1));
      |ls| == 3 && "  ///" <= ls[0] && ls[1] == "  impl Error for HttpError" && ls[2] == ""
  {
    ImplLiterals();
    HttpErrorImplLines();
    GeneratedDocLine(HttpErrorImpl(), "  ");
  }

  /** The same impl writes no line that opens a block. */
  lemma EmptyTraitImplUnbraced()
    ensures var ls := TraitImplLines(HttpErrorImpl(), New().WithDepth(1));
      forall i | 0 <= i < |ls| :: ls[i] != "  impl Error for HttpError {"
  {
    BraceLiteral();
    IndentOne();
    HttpErrorSignature();
    EmptyImplUnbraced(HttpErrorImpl(), New().WithDepth(1));
  }

  lemma BraceLiteral()
    ensures "  " + ("impl Error for HttpError" + " {") == "  impl Error for HttpError {"
  {
  }

  lemma GeneratedDocLine(imp: ParsedTraitImpl, ind: string)
    requires imp.docs.None?
    ensures ImplDocLines(imp, ind) == [ind + GeneratedImplDoc(imp)]
    ensures ind + "///" <= ind + GeneratedImplDoc(imp)
  {
    var l, x, y := "/// Implementation of ", LastSegment(imp.traitPath, "::"), ImplTypeName(imp.forType);
    assert "///" <= l;
    PrefixLine(l, x);
    PrefixLine(l + x, " trait for ");
    PrefixLine(l + x + " trait for ", y);
    PrefixTrans(l, l + x, l + x + " trait for ");
    PrefixTrans(l, l + x + " trait for ", l + x + " trait for " + y);
    PrefixTrans("///", l, GeneratedImplDoc(imp));
    PrefixUnder(ind, "///", GeneratedImplDoc(imp));
  }

  function SetTimeout(docs: Option<string>): ParsedFunction
  {
    ParsedFunction(
      FunctionSignature("set_timeout", Public, NoGenerics,
        [("self", Reference(None, true, Generic("Self"))), ("seconds", Primitive("u32"))], Unit, false),
      docs, Some(Deprecation(Some("1.1.0"), None)))
  }

  lemma SetTimeoutSignature(docs: Option<string>)
    ensures "pub fn set_timeout" <= FunctionSignatureText(SetTimeout(docs).signature)
    ensures ParamList(SetTimeout(docs).signature.inputs) == "(&mut self, seconds: u32)"
  {
    var sig := SetTimeout(docs).signature;
    var ts := InputTexts(sig.inputs);
    assert ts[0] == "&mut self" && ts[1] == "seconds: u32";
    assert ts == ["&mut self", "seconds: u32"];
    JoinPair("&mut self", "seconds: u32", ", ");
    var name := "pub " + "fn " + sig.name;
    assert name == "pub fn set_timeout";
    var rest := RenderGenerics(sig.generics) + ParamList(sig.inputs) + ReturnText(sig.output) + RenderWhereClause(sig.generics);
    assert FunctionSignatureText(sig) == name + RenderGenerics(sig.generics) + ParamList(sig.inputs) + ReturnText(sig.output) + RenderWhereClause(sig.generics);
    assert RenderGenerics(sig.generics) == "" && ReturnText(sig.output) == "" && RenderWhereClause(sig.generics) == "";
    PrefixLine(name, ParamList(sig.inputs));
  }

  /** A deprecated method with a version, at depth 1, whatever its docs:
      its first line is the indented notice and its last line the
      signature. */
  lemma DeprecatedMethodRender(docs: Option<string>)
    ensures var ls := FunctionLines(SetTimeout(docs), New().WithDepth(1));
      ls[0] == "  DEPRECATED since 1.1.0" && "  pub fn set_timeout" <= ls[|ls| - 1]
  {
    assert "  " + "DEPRECATED since " + "1.1.0" == "  DEPRECATED since 1.1.0";
    assert "  " + "pub fn set_timeout" == "  pub fn set_timeout";
    IndentOne();
    var f := SetTimeout(docs);
    SetTimeoutSignature(docs);
    PrefixUnder("  ", "pub fn set_timeout", FunctionSignatureText(f.signature));
  }
}
