/** The few `str` operations of Rust's standard library that the source relies
    on: `join`, `repeat`, `find`, `contains`, `replace`, `split("::").last()`,
    `lines()` and `trim().is_empty()`, each defined over `seq<char>`. */
module Strings {
  import opened Wrappers

  /** `parts.join(sep)`: the parts in order with `sep` between neighbours. */
  function Join(parts: seq<string>, sep: string): string
  {
    if |parts| == 0 then ""
    else if |parts| == 1 then parts[0]
    else Join(parts[..|parts| - 1], sep) + sep + parts[|parts| - 1]
  }

  lemma JoinAppend(parts: seq<string>, last: string, sep: string)
    requires |parts| > 0
    ensures Join(parts + [last], sep) == Join(parts, sep) + sep + last
  {
    assert (parts + [last])[..|parts|] == parts;
  }

  /** `s.repeat(n)`. */
  function Repeat(s: string, n: nat): (r: string)
    ensures |r| == n * |s|
  {
    if n == 0 then "" else s + Repeat(s, n - 1)
  }

  /** Repeating two spaces gives nothing but spaces. */
  lemma {:induction false} RepeatPairOfSpaces(n: nat)
    ensures |Repeat("  ", n)| == 2 * n
    ensures forall i | 0 <= i < 2 * n :: Repeat("  ", n)[i] == ' '
  {
    if n > 0 {
      RepeatPairOfSpaces(n - 1);
      var r := Repeat("  ", n);
      assert r == "  " + Repeat("  ", n - 1);
      forall i | 0 <= i < 2 * n ensures r[i] == ' ' {
        if i >= 2 {
          assert r[i] == Repeat("  ", n - 1)[i - 2];
        }
      }
    }
  }

  /** Whether `pat` occurs in `s` starting at position `j`. */
  predicate OccursAt(s: string, pat: string, j: nat)
  {
    j + |pat| <= |s| && s[j..j + |pat|] == pat
  }

  lemma OccursAtTail(s: string, pat: string)
    requires |s| > 0
    ensures forall j: nat :: j >= 1 ==> (OccursAt(s, pat, j) <==> OccursAt(s[1..], pat, j - 1))
  {
    forall j: nat | j >= 1 ensures OccursAt(s, pat, j) <==> OccursAt(s[1..], pat, j - 1) {
      if j + |pat| <= |s| {
        SliceOfTail(s, j, |pat|);
      }
    }
  }

  lemma SliceOfTail(s: string, j: nat, n: nat)
    requires 1 <= j && j + n <= |s|
    ensures s[j..j + n] == s[1..][j - 1..j - 1 + n]
  {
    var a, b := s[j..j + n], s[1..][j - 1..j - 1 + n];
    assert |a| == |b|;
    forall k | 0 <= k < n ensures a[k] == b[k] {
      assert a[k] == s[j + k];
      assert b[k] == s[1..][j - 1 + k];
    }
  }

  /** `s.find(pat)`: the first position at which `pat` occurs in `s`. */
  function IndexOf(s: string, pat: string): (r: Option<nat>)
    ensures r.Some? ==> OccursAt(s, pat, r.value)
    ensures r.Some? ==> forall j: nat :: j < r.value ==> !OccursAt(s, pat, j)
    ensures r.None? ==> forall j: nat :: !OccursAt(s, pat, j)
    decreases |s|
  {
    if |s| < |pat| then None
    else if pat <= s then Some(0)
    else
      OccursAtTail(s, pat);
      assert !OccursAt(s, pat, 0);
      match IndexOf(s[1..], pat)
      case None => None
      case Some(k) => Some(k + 1)
  }

  /** `s.contains(pat)`. */
  function Contains(s: string, pat: string): bool
  {
    IndexOf(s, pat).Some?
  }

  /** A one-character pattern occurs exactly where that character does. */
  lemma IndexOfChar(s: string, c: char)
    ensures IndexOf(s, [c]).None? <==> c !in s
    ensures IndexOf(s, [c]).Some? ==> s[IndexOf(s, [c]).value] == c
    ensures IndexOf(s, [c]).Some? ==> c !in s[..IndexOf(s, [c]).value]
  {
    var r := IndexOf(s, [c]);
    assert forall j: nat :: j < |s| ==> (OccursAt(s, [c], j) <==> s[j] == c) by {
      forall j: nat | j < |s| ensures s[j..j + 1] == [s[j]] { }
    }
    if r.Some? {
      forall j | 0 <= j < r.value ensures s[..r.value][j] != c {
        assert !OccursAt(s, [c], j);
      }
    }
  }

  /** A string without the separator's first character is its own last
      segment. */
  lemma LastSegmentWithoutSeparator(s: string, sep: string)
    requires |sep| > 0 && sep[0] !in s
    ensures LastSegment(s, sep) == s
  {
  }

  /** `s.replace(from, to)`: every non-overlapping occurrence of `from`,
      scanning left to right, becomes `to`. */
  function Replace(s: string, from: string, to: string): string
    requires |from| > 0
    decreases |s|
  {
    if |s| < |from| then s
    else if from <= s then to + Replace(s[|from|..], from, to)
    else [s[0]] + Replace(s[1..], from, to)
  }

  /** A string in which `from` does not occur is left as it is. */
  lemma {:induction false} ReplaceWithoutOccurrence(s: string, from: string, to: string)
    requires |from| > 0
    requires IndexOf(s, from).None?
    ensures Replace(s, from, to) == s
    decreases |s|
  {
    if |s| >= |from| {
      assert !OccursAt(s, from, 0);
      OccursAtTail(s, from);
      ReplaceWithoutOccurrence(s[1..], from, to);
      assert s == [s[0]] + s[1..];
    }
  }

  /** `s.split(sep).last()`: what follows the last separator found when `s` is
      split from the left (all of `s` when `sep` does not occur). */
  function LastSegment(s: string, sep: string): (r: string)
    requires |sep| > 0
    ensures |r| <= |s| && r == s[|s| - |r|..]
    ensures IndexOf(r, sep).None?
    ensures IndexOf(s, sep).None? ==> r == s
    ensures IndexOf(s, sep).Some? ==> SeparatorBefore(s, sep, |r|)
    decreases |s|
  {
    match IndexOf(s, sep)
    case None => s
    case Some(i) =>
      var seg := LastSegment(s[i + |sep|..], sep);
      LastSegmentStep(s, sep, i, |seg|);
      seg
  }

  /** The separator sits just before the last `n` characters of `s`. */
  predicate SeparatorBefore(s: string, sep: string, n: nat)
  {
    n + |sep| <= |s| && OccursAt(s, sep, |s| - n - |sep|)
  }

  /** The step of `LastSegment` past a separator at position `i`: a segment
      of the rest that is preceded by a separator there, or is all of the
      rest, is preceded by a separator in `s`. */
  lemma LastSegmentStep(s: string, sep: string, i: nat, n: nat)
    requires |sep| > 0 && OccursAt(s, sep, i)
    requires n <= |s| - i - |sep|
    requires n < |s| - i - |sep| ==> SeparatorBefore(s[i + |sep|..], sep, n)
    ensures SeparatorBefore(s, sep, n)
  {
    var k := i + |sep|;
    if n < |s| - k {
      OccursInSuffix(s, k, sep, |s| - k - n - |sep|);
    }
  }

  /** An occurrence in a suffix is an occurrence in the whole string. */
  lemma OccursInSuffix(s: string, k: nat, pat: string, j: nat)
    requires k <= |s| && OccursAt(s[k..], pat, j)
    ensures OccursAt(s, pat, k + j)
  {
    assert s[k..][j..j + |pat|] == s[k + j..k + j + |pat|];
  }

  /** Whether `c` is white space in the sense of Rust's `char::is_whitespace`
      (the Unicode White_Space property). */
  predicate IsWhitespace(c: char)
  {
    ('\t' <= c <= '\r') || c == ' ' || c == '\U{85}' || c == '\U{A0}' || c == '\U{1680}'
    || ('\U{2000}' <= c <= '\U{200A}') || c == '\U{2028}' || c == '\U{2029}'
    || c == '\U{202F}' || c == '\U{205F}' || c == '\U{3000}'
  }

  /** `line.trim().is_empty()`. */
  predicate IsBlank(line: string)
  {
    forall i | 0 <= i < |line| :: IsWhitespace(line[i])
  }

  /** Drops the `'\r'` of a `"\r\n"` line ending. */
  function StripCarriageReturn(line: string): string
  {
    if |line| > 0 && line[|line| - 1] == '\r' then line[..|line| - 1] else line
  }

  /** `s.lines()`: `s` cut at each `'\n'`, a `'\r'` right before the `'\n'`
      removed, and no empty line after a final `'\n'`. */
  function Lines(s: string): (r: seq<string>)
    ensures forall k | 0 <= k < |r| :: '\n' !in r[k]
    decreases |s|
  {
    if s == "" then []
    else
      IndexOfChar(s, '\n');
      match IndexOf(s, "\n")
      case None => [s]
      case Some(i) => [StripCarriageReturn(s[..i])] + Lines(s[i + 1..])
  }

  /** The text made of `lines`, each one followed by `'\n'`: how every render
      of the source builds its output. */
  function ConcatLines(lines: seq<string>): string
  {
    if |lines| == 0 then "" else ConcatLines(lines[..|lines| - 1]) + lines[|lines| - 1] + "\n"
  }

  lemma {:induction false} ConcatLinesAppend(a: seq<string>, b: seq<string>)
    ensures ConcatLines(a + b) == ConcatLines(a) + ConcatLines(b)
    decreases |b|
  {
    if |b| > 0 {
      assert (a + b)[..|a + b| - 1] == a + b[..|b| - 1];
      ConcatLinesAppend(a, b[..|b| - 1]);
    } else {
      assert a + b == a;
    }
  }

  /** Round trip: `lines()` recovers the lines that were joined, as long as no
      line holds a newline or ends in a carriage return. */
  lemma {:induction false} LinesOfConcatLines(ls: seq<string>)
    requires forall k | 0 <= k < |ls| :: '\n' !in ls[k]
    requires forall k | 0 <= k < |ls| :: |ls[k]| == 0 || ls[k][|ls[k]| - 1] != '\r'
    ensures Lines(ConcatLines(ls)) == ls
    decreases |ls|
  {
    if |ls| > 0 {
      var l, rest := ls[0], ls[1..];
      assert ls == [l] + rest;
      ConcatLinesAppend([l], rest);
      assert ConcatLines([l]) == l + "\n";
      var s := ConcatLines(ls);
      assert s == l + "\n" + ConcatLines(rest);
      IndexOfChar(s, '\n');
      assert s[|l|] == '\n';
      assert s[..|l|] == l;
      var i := IndexOf(s, "\n").value;
      assert '\n' !in s[..|l|];
      assert i == |l|;
      assert s[i + 1..] == ConcatLines(rest);
      LinesOfConcatLines(rest);
    }
  }
}
