/** The two list-building patterns the parser's loops follow: keep the `Some`
    results of a step in order (`if let Some(x) = step(e) { v.push(x) }`), and
    the same with a step that can fail and abort the loop (`?`). */
module Lists {
  import opened Wrappers

  /** The values `f` yields on `xs`, in order; `None` contributes nothing. */
  function FilterMap<A, B>(xs: seq<A>, f: A -> Option<B>): (r: seq<B>)
    ensures |r| <= |xs|
  {
    if |xs| == 0 then []
    else
      var rest := FilterMap(xs[..|xs| - 1], f);
      match f(xs[|xs| - 1])
      case Some(b) => rest + [b]
      case None => rest
  }

  /** Nothing is kept exactly when every step yields `None`. */
  lemma {:induction false} FilterMapEmpty<A, B>(xs: seq<A>, f: A -> Option<B>)
    ensures FilterMap(xs, f) == [] <==> forall i | 0 <= i < |xs| :: f(xs[i]).None?
  {
    if |xs| > 0 {
      var init := xs[..|xs| - 1];
      FilterMapEmpty(init, f);
      assert forall i | 0 <= i < |init| :: init[i] == xs[i];
    }
  }

  /** When every step yields a value, the result is the step mapped over `xs`. */
  lemma {:induction false} FilterMapAllSome<A, B>(xs: seq<A>, f: A -> Option<B>)
    requires forall i | 0 <= i < |xs| :: f(xs[i]).Some?
    ensures |FilterMap(xs, f)| == |xs|
    ensures forall i | 0 <= i < |xs| :: FilterMap(xs, f)[i] == f(xs[i]).value
  {
    if |xs| > 0 {
      var init := xs[..|xs| - 1];
      assert forall i | 0 <= i < |init| :: init[i] == xs[i];
      FilterMapAllSome(init, f);
    }
  }

  /** A value is kept exactly when some element yields it. */
  lemma {:induction false} FilterMapMember<A, B>(xs: seq<A>, f: A -> Option<B>, b: B)
    ensures b in FilterMap(xs, f) <==> exists i | 0 <= i < |xs| :: f(xs[i]) == Some(b)
  {
    if |xs| > 0 {
      var init := xs[..|xs| - 1];
      assert forall i | 0 <= i < |init| :: init[i] == xs[i];
      FilterMapMember(init, f, b);
      if f(xs[|xs| - 1]) == Some(b) {
        assert b in FilterMap(xs, f);
      }
    }
  }

  /** Processing two lists one after the other keeps both results, in order. */
  lemma {:induction false} FilterMapAppend<A, B>(xs: seq<A>, ys: seq<A>, f: A -> Option<B>)
    ensures FilterMap(xs + ys, f) == FilterMap(xs, f) + FilterMap(ys, f)
    decreases |ys|
  {
    if |ys| == 0 {
      assert xs + ys == xs;
    } else {
      var ys' := ys[..|ys| - 1];
      assert (xs + ys)[..|xs + ys| - 1] == xs + ys';
      FilterMapAppend(xs, ys', f);
    }
  }

  /** The loop `for x in xs { if let Some(b) = f(x)? { v.push(b) } }`: the kept
      values in order, or the first error. */
  function CollectAll<A, B>(xs: seq<A>, f: A -> Result<Option<B>>): Result<seq<B>>
  {
    if |xs| == 0 then Ok([])
    else
      match CollectAll(xs[..|xs| - 1], f)
      case Err(e) => Err(e)
      case Ok(rest) =>
        match f(xs[|xs| - 1])
        case Err(e) => Err(e)
        case Ok(None) => Ok(rest)
        case Ok(Some(b)) => Ok(rest + [b])
  }

  /** Once a prefix has failed, the whole loop fails with the same error. */
  lemma {:induction false} CollectAllErrExtends<A, B>(xs: seq<A>, j: nat, f: A -> Result<Option<B>>)
    requires j <= |xs|
    requires CollectAll(xs[..j], f).Err?
    ensures CollectAll(xs, f) == CollectAll(xs[..j], f)
    decreases |xs| - j
  {
    if j < |xs| {
      assert xs[..j + 1][..j] == xs[..j];
      CollectAllErrExtends(xs, j + 1, f);
    } else {
      assert xs[..j] == xs;
    }
  }

  /** The loop fails exactly when some step fails, and then with the error of
      the first step that fails. */
  lemma {:induction false} CollectAllErr<A, B>(xs: seq<A>, f: A -> Result<Option<B>>)
    ensures CollectAll(xs, f).Err? <==> exists i | 0 <= i < |xs| :: f(xs[i]).Err?
    ensures CollectAll(xs, f).Err? ==>
      exists i | 0 <= i < |xs| :: f(xs[i]) == Err(CollectAll(xs, f).error)
        && forall j | 0 <= j < i :: f(xs[j]).Ok?
  {
    if |xs| > 0 {
      var init := xs[..|xs| - 1];
      assert forall i | 0 <= i < |init| :: init[i] == xs[i];
      CollectAllErr(init, f);
    }
  }

  /** A loop in which no step fails keeps what `FilterMap` keeps. */
  lemma {:induction false} CollectAllOk<A, B>(xs: seq<A>, f: A -> Result<Option<B>>, g: A -> Option<B>)
    requires forall i | 0 <= i < |xs| :: f(xs[i]) == Ok(g(xs[i]))
    ensures CollectAll(xs, f) == Ok(FilterMap(xs, g))
  {
    if |xs| > 0 {
      var init := xs[..|xs| - 1];
      assert forall i | 0 <= i < |init| :: init[i] == xs[i];
      CollectAllOk(init, f, g);
    }
  }

  /** What a fallible step keeps, reading a failure as nothing. */
  function OkValue<A, B>(f: A -> Result<Option<B>>): A -> Option<B>
  {
    (x: A) => if f(x).Ok? then f(x).value else None
  }

  /** A loop that succeeds keeps exactly the values its steps yield, in
      order. */
  lemma {:induction false} CollectAllKept<A, B>(xs: seq<A>, f: A -> Result<Option<B>>)
    ensures CollectAll(xs, f).Ok? ==> CollectAll(xs, f).value == FilterMap(xs, OkValue(f))
  {
    if |xs| > 0 {
      CollectAllKept(xs[..|xs| - 1], f);
    }
  }

  /** The lists `f` gives on `xs`, one after the other. */
  function FlatMap<A, B>(xs: seq<A>, f: A -> seq<B>): seq<B>
  {
    if |xs| == 0 then [] else FlatMap(xs[..|xs| - 1], f) + f(xs[|xs| - 1])
  }
}
