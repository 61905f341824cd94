/** `ParsedRenderer::render`: the crate header, the optional version and
    docs, then every top-level item at depth 1, macros first
    (src/renderer/renderer.rs). */
module CrateRenderer {
  import opened Wrappers
  import opened Strings
  import opened Types
  import opened RenderContexts
  import opened Renders

  // ---------------------------------------------------------------------
  // The macros-first partition

  /** The macro items, in their original order. */
  function Macros(items: seq<ParsedItem>): (r: seq<ParsedItem>)
    ensures forall i | 0 <= i < |r| :: r[i].Macro?
  {
    if |items| == 0 then []
    else Macros(items[..|items| - 1]) + (if items[|items| - 1].Macro? then [items[|items| - 1]] else [])
  }

  /** The other items, in their original order. */
  function Others(items: seq<ParsedItem>): (r: seq<ParsedItem>)
    ensures forall i | 0 <= i < |r| :: !r[i].Macro?
  {
    if |items| == 0 then []
    else Others(items[..|items| - 1]) + (if items[|items| - 1].Macro? then [] else [items[|items| - 1]])
  }

  /** Taking the macros of a concatenation concatenates the macros of its
      parts: the macros keep their relative order. */
  lemma {:induction false} MacrosAppend(a: seq<ParsedItem>, b: seq<ParsedItem>)
    ensures Macros(a + b) == Macros(a) + Macros(b)
    decreases |b|
  {
    if |b| == 0 {
      assert a + b == a;
    } else {
      assert (a + b)[..|a + b| - 1] == a + b[..|b| - 1];
      MacrosAppend(a, b[..|b| - 1]);
    }
  }

  /** The same for the other items. */
  lemma {:induction false} OthersAppend(a: seq<ParsedItem>, b: seq<ParsedItem>)
    ensures Others(a + b) == Others(a) + Others(b)
    decreases |b|
  {
    if |b| == 0 {
      assert a + b == a;
    } else {
      assert (a + b)[..|a + b| - 1] == a + b[..|b| - 1];
      OthersAppend(a, b[..|b| - 1]);
    }
  }

  /** `Iterator::partition` with the `Macro` test loses and invents nothing:
      together the two parts hold exactly the items. */
  lemma {:induction false} PartitionPermutes(a: seq<ParsedItem>)
    ensures multiset(Macros(a)) + multiset(Others(a)) == multiset(a)
    ensures |Macros(a)| + |Others(a)| == |a|
  {
    if |a| > 0 {
      var init, x := a[..|a| - 1], a[|a| - 1];
      PartitionPermutes(init);
      assert a == init + [x];
      assert multiset(a) == multiset(init) + multiset{x};
      if x.Macro? {
        assert Macros(a) == Macros(init) + [x];
        assert Others(a) == Others(init) + [];
      } else {
        assert Macros(a) == Macros(init) + [];
        assert Others(a) == Others(init) + [x];
      }
    }
  }

  /** Without macros nothing moves. */
  lemma {:induction false} NoMacrosStable(a: seq<ParsedItem>)
    requires forall i | 0 <= i < |a| :: !a[i].Macro?
    ensures Others(a) == a && Macros(a) == []
  {
    if |a| > 0 {
      var init, x := a[..|a| - 1], a[|a| - 1];
      assert forall i | 0 <= i < |init| :: init[i] == a[i];
      NoMacrosStable(init);
      assert !x.Macro?;
      assert a == init + [x];
    }
  }

  /** With only macros nothing moves either. */
  lemma {:induction false} AllMacrosStable(a: seq<ParsedItem>)
    requires forall i | 0 <= i < |a| :: a[i].Macro?
    ensures Macros(a) == a && Others(a) == []
  {
    if |a| > 0 {
      var init, x := a[..|a| - 1], a[|a| - 1];
      assert forall i | 0 <= i < |init| :: init[i] == a[i];
      AllMacrosStable(init);
      assert x.Macro?;
      assert a == init + [x];
    }
  }

  /** The partition loop. */
  method Partition(items: seq<ParsedItem>) returns (macros: seq<ParsedItem>, others: seq<ParsedItem>)
    ensures macros == Macros(items) && others == Others(items)
  {
    macros, others := [], [];
    var i := 0;
    while i < |items|
      invariant 0 <= i <= |items|
      invariant macros == Macros(items[..i]) && others == Others(items[..i])
    {
      assert items[..i + 1][..i] == items[..i];
      if items[i].Macro? {
        macros := macros + [items[i]];
      } else {
        others := others + [items[i]];
      }
      i := i + 1;
    }
    assert items[..|items|] == items;
  }

  // ---------------------------------------------------------------------
  // The crate text

  /** Top-level items render one level deep. */
  function TopContext(): (c: RenderContext)
    ensures c.depth == 1 && c.Indent() == "  "
    ensures c == New().WithDepth(1)
  {
    New().WithDepth(1)
  }

  function CrateLine(m: ParsedModule): string
  {
    "# Crate: " + m.name + "\n\n"
  }

  function VersionPart(version: Option<string>): (r: string)
    ensures version.None? <==> r == ""
  {
    match version
    case Some(v) => "Version: " + v + "\n\n"
    case None => ""
  }

  function DocsPart(docs: Option<string>): (r: string)
    ensures docs.None? <==> r == ""
  {
    match docs
    case Some(d) => d + "\n\n"
    case None => ""
  }

  /** The items of a list rendered in order, as text. */
  function ItemsText(items: seq<ParsedItem>): string
  {
    ConcatLines(ItemsLines(items, TopContext()))
  }

  /** The top-level items, macros first. */
  function Body(items: seq<ParsedItem>): string
  {
    ItemsText(Macros(items)) + ItemsText(Others(items))
  }

  /** Everything `render` writes before the items. */
  function Header(m: ParsedModule, version: Option<string>): string
  {
    CrateLine(m) + VersionPart(version) + DocsPart(m.docs)
  }

  /** The whole output of `render`. */
  function RenderText(m: ParsedModule, version: Option<string>): string
  {
    Header(m, version) + Body(m.items)
  }

  /** `ParsedRenderer::render`. */
  method Render(m: ParsedModule, version: Option<string>) returns (out: string)
    ensures out == RenderText(m, version)
  {
    out := "# Crate: " + m.name + "\n\n";
    if version.Some? {
      out := out + ("Version: " + version.value + "\n\n");
    }
    if m.docs.Some? {
      out := out + (m.docs.value + "\n\n");
    }
    HeaderSteps(m, version);
    var head := out;
    var macros, others := Partition(m.items);
    var ctx := TopContext();
    EmptyItems();
    EmptyRight(head);
    var i := 0;
    while i < |macros|
      invariant 0 <= i <= |macros|
      invariant out == head + ItemsText(macros[..i])
    {
      ItemsTextStep(macros, i);
      Associative(head, ItemsText(macros[..i]), ItemText(macros[i], ctx));
      out := out + ItemText(macros[i], ctx);
      i := i + 1;
    }
    assert macros[..|macros|] == macros;
    var body := out;
    EmptyRight(body);
    var j := 0;
    while j < |others|
      invariant 0 <= j <= |others|
      invariant out == body + ItemsText(others[..j])
    {
      ItemsTextStep(others, j);
      Associative(body, ItemsText(others[..j]), ItemText(others[j], ctx));
      out := out + ItemText(others[j], ctx);
      j := j + 1;
    }
    assert others[..|others|] == others;
    Associative(head, ItemsText(macros), ItemsText(others));
  }

  // ---------------------------------------------------------------------
  // Properties of the crate text

  lemma Associative(a: string, b: string, c: string)
    ensures a + b + c == a + (b + c)
  {
  }

  lemma EmptyItems()
    ensures ItemsText([]) == ""
  {
  }

  lemma EmptyRight(a: string)
    ensures a + "" == a
  {
  }

  /** The header as `render` builds it, one optional part at a time. */
  lemma HeaderSteps(m: ParsedModule, version: Option<string>)
    ensures version.None? && m.docs.None? ==> Header(m, version) == CrateLine(m)
    ensures version.Some? && m.docs.None? ==> Header(m, version) == CrateLine(m) + VersionPart(version)
    ensures version.None? && m.docs.Some? ==> Header(m, version) == CrateLine(m) + DocsPart(m.docs)
  {
    EmptyRight(CrateLine(m));
    EmptyRight(CrateLine(m) + VersionPart(version));
  }

  lemma ItemsTextStep(xs: seq<ParsedItem>, i: nat)
    requires i < |xs|
    ensures ItemsText(xs[..i + 1]) == ItemsText(xs[..i]) + ItemText(xs[i], TopContext())
  {
    var ctx := TopContext();
    assert xs[..i + 1][..i] == xs[..i];
    assert ItemsLines(xs[..i + 1], ctx) == ItemsLines(xs[..i], ctx) + ItemLines(xs[i], ctx);
    ConcatLinesAppend(ItemsLines(xs[..i], ctx), ItemLines(xs[i], ctx));
  }

  lemma {:induction false} ItemsLinesAppend(a: seq<ParsedItem>, b: seq<ParsedItem>, ctx: RenderContext)
    ensures ItemsLines(a + b, ctx) == ItemsLines(a, ctx) + ItemsLines(b, ctx)
    decreases |b|
  {
    if |b| == 0 {
      assert a + b == a;
    } else {
      var b0 := b[..|b| - 1];
      var x := b[|b| - 1];
      assert (a + b)[..|a + b| - 1] == a + b0;
      assert (a + b)[|a + b| - 1] == x;
      ItemsLinesAppend(a, b0, ctx);
    }
  }

  /** Rendering a list renders its parts one after the other. */
  lemma ItemsTextAppend(a: seq<ParsedItem>, b: seq<ParsedItem>)
    ensures ItemsText(a + b) == ItemsText(a) + ItemsText(b)
  {
    ItemsLinesAppend(a, b, TopContext());
    ConcatLinesAppend(ItemsLines(a, TopContext()), ItemsLines(b, TopContext()));
  }

  /** A text split after a prefix: the prefix starts it and the rest follows. */
  lemma SplitAfter(a: string, b: string)
    ensures a <= a + b && (a + b)[|a|..] == b
  {
  }

  /** The output starts with the crate line; the version line follows it
      exactly when a version is given, and the docs follow that exactly when
      the module has docs. */
  lemma RenderHeader(m: ParsedModule, version: Option<string>)
    ensures CrateLine(m) <= RenderText(m, version)
    ensures version.Some? ==>
      RenderText(m, version) == CrateLine(m) + ("Version: " + version.value + "\n\n") + RenderText(m, None)[|CrateLine(m)|..]
    ensures version.None? && m.docs.None? ==> RenderText(m, version) == CrateLine(m) + Body(m.items)
    ensures m.docs.Some? ==>
      RenderText(m, version)[|CrateLine(m) + VersionPart(version)|..] == (m.docs.value + "\n\n") + Body(m.items)
  {
    var c, v, d, b := CrateLine(m), VersionPart(version), DocsPart(m.docs), Body(m.items);
    assert RenderText(m, version) == c + v + d + b;
    Associative(c + v, d, b);
    Associative(c, v, d + b);
    SplitAfter(c, v + (d + b));
    SplitAfter(c + v, d + b);
    EmptyRight(c);
    assert RenderText(m, None) == c + d + b;
    Associative(c, d, b);
    SplitAfter(c, d + b);
    HeaderSteps(m, version);
  }

  /** Every macro is written before every other item, each group in its
      original order: the body is the items rendered in macros-first order,
      and when the items already come macros first (in particular when there
      are no macros, or only macros) it is the items rendered as they stand. */
  lemma MacrosFirst(items: seq<ParsedItem>)
    ensures Body(items) == ItemsText(Macros(items) + Others(items))
    ensures items == Macros(items) + Others(items) ==> Body(items) == ItemsText(items)
    ensures (forall i | 0 <= i < |items| :: !items[i].Macro?) ==> Body(items) == ItemsText(items)
    ensures (forall i | 0 <= i < |items| :: items[i].Macro?) ==> Body(items) == ItemsText(items)
  {
    ItemsTextAppend(Macros(items), Others(items));
    if forall i | 0 <= i < |items| :: !items[i].Macro? {
      NoMacrosStable(items);
      assert [] + items == items;
    }
    if forall i | 0 <= i < |items| :: items[i].Macro? {
      AllMacrosStable(items);
      assert items + [] == items;
    }
  }

  /** Top-level items are written at depth 1: every line of the body is
      blank or starts with two spaces. */
  lemma TopLevelIndented(items: seq<ParsedItem>)
    ensures Indented(ItemsLines(Macros(items), TopContext()), "  ")
    ensures Indented(ItemsLines(Others(items), TopContext()), "  ")
  {
    ItemsIndented(Macros(items), TopContext());
    ItemsIndented(Others(items), TopContext());
  }
}
