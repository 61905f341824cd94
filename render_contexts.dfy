/** `RenderContext`: the immutable settings every render receives, of which
    only the nesting depth affects the text (src/renderer/traits.rs). */
module RenderContexts {
  import opened Strings

  /** The output formats; plain text is the only one. */
  datatype OutputFormat = Text

  datatype RenderContext = RenderContext(depth: nat, showPrivate: bool, format: OutputFormat)
  {
    /** A copy at another depth; all other settings are carried over. */
    function WithDepth(d: nat): (r: RenderContext)
      ensures r.depth == d
      ensures r.showPrivate == showPrivate && r.format == format
    {
      RenderContext(d, showPrivate, format)
    }

    /** Two spaces per level of depth. */
    function Indent(): (r: string)
      ensures |r| == 2 * depth
      ensures forall i | 0 <= i < |r| :: r[i] == ' '
    {
      RepeatPairOfSpaces(depth);
      Repeat("  ", depth)
    }
  }

  /** `RenderContext::new()`: depth 0, private items hidden, plain text. */
  function New(): (c: RenderContext)
    ensures c.depth == 0 && !c.showPrivate && c.format == Text
    ensures c.Indent() == ""
  {
    RenderContext(0, false, Text)
  }

  /** `Default::default()`. */
  function Default(): (c: RenderContext)
    ensures c == New()
  {
    New()
  }

  /** An indentation is determined by its depth alone. */
  lemma IndentOfDepth(c: RenderContext, d: RenderContext)
    ensures c.Indent() == d.Indent() <==> c.depth == d.depth
  {
  }

  /** An indentation extends every shallower one: a child's lines start with
      its parent's indentation. */
  lemma IndentPrefix(c: RenderContext, d: nat)
    requires c.depth <= d
    ensures c.Indent() <= c.WithDepth(d).Indent()
    ensures c.WithDepth(d).Indent() == c.Indent() + Repeat("  ", d - c.depth)
  {
    var lo := c.Indent();
    var hi := c.WithDepth(d).Indent();
    var extra := Repeat("  ", d - c.depth);
    RepeatPairOfSpaces(d - c.depth);
    assert hi == lo + extra by {
      assert |hi| == |lo + extra|;
      forall i | 0 <= i < |hi| ensures hi[i] == (lo + extra)[i] {
      }
    }
  }
}
