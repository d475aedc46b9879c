/**
Downgrading Markdown to plain text: ten substitution passes and a final strip.  A pass is any
matcher that names disjoint matches from left to right and the inner span each one keeps; which
text a concrete regular expression matches is not modelled.
*/
module MarkdownText {
  import opened PythonText

  /** The characters `start..end` are replaced by the characters `keepFrom..keepTo` inside them. */
  datatype Match = Match(start: nat, end: nat, keepFrom: nat, keepTo: nat)

  predicate Disjoint(matches: seq<Match>, from: nat, length: nat)
    decreases |matches|
  {
    matches == [] ||
    (from <= matches[0].start <= matches[0].keepFrom <= matches[0].keepTo <= matches[0].end <= length &&
     Disjoint(matches[1..], matches[0].end, length))
  }

  ghost predicate IsPass(find: string -> seq<Match>) {
    forall s :: Disjoint(find(s), 0, |s|)
  }

  type Pass = find: string -> seq<Match> | IsPass(find) ghost witness (s: string) => []

  function Substitute(s: string, matches: seq<Match>, from: nat): string
    requires from <= |s| && Disjoint(matches, from, |s|)
    decreases |matches|
  {
    if matches == [] then s[from..]
    else s[from..matches[0].start] + s[matches[0].keepFrom..matches[0].keepTo] +
         Substitute(s, matches[1..], matches[0].end)
  }

  function ApplyPasses(passes: seq<Pass>, s: string): string {
    if passes == [] then s
    else
      var t := ApplyPasses(passes[..|passes| - 1], s);
      Substitute(t, passes[|passes| - 1](t), 0)
  }

  function MarkdownToText(passes: seq<Pass>, s: string): string {
    Strip(ApplyPasses(passes, s))
  }

  // ---------------------------------------------------------------- subsequences

  /** `a` is `b` with some characters left out. */
  ghost predicate IsSubsequence(a: string, b: string)
    decreases |b|
  {
    a == "" || (b != "" && ((a[0] == b[0] && IsSubsequence(a[1..], b[1..])) || IsSubsequence(a, b[1..])))
  }

  lemma {:induction false} SubsequenceSelf(a: string)
    ensures IsSubsequence(a, a)
  {
    if a != "" {
      SubsequenceSelf(a[1..]);
    }
  }

  lemma {:induction false} SubsequenceAfter(a: string, skipped: string, b: string)
    requires IsSubsequence(a, b)
    ensures IsSubsequence(a, skipped + b)
  {
    if skipped == "" {
      assert skipped + b == b;
    } else {
      SubsequenceAfter(a, skipped[1..], b);
      assert (skipped + b)[1..] == skipped[1..] + b;
    }
  }

  lemma {:induction false} SubsequenceAppend(a: string, b: string, c: string, d: string)
    requires IsSubsequence(a, b) && IsSubsequence(c, d)
    ensures IsSubsequence(a + c, b + d)
    decreases |b|
  {
    if a == "" {
      assert a + c == c;
      SubsequenceAfter(c, b, d);
    } else {
      assert (a + c)[1..] == a[1..] + c && (b + d)[1..] == b[1..] + d;
      if a[0] == b[0] && IsSubsequence(a[1..], b[1..]) {
        SubsequenceAppend(a[1..], b[1..], c, d);
      } else {
        SubsequenceAppend(a, b[1..], c, d);
      }
    }
  }

  lemma {:induction false} SubsequenceTransitive(a: string, b: string, c: string)
    requires IsSubsequence(a, b) && IsSubsequence(b, c)
    ensures IsSubsequence(a, c)
    decreases |c|
  {
    if a != "" {
      if b[0] == c[0] && IsSubsequence(b[1..], c[1..]) {
        if a[0] == b[0] && IsSubsequence(a[1..], b[1..]) {
          SubsequenceTransitive(a[1..], b[1..], c[1..]);
        } else {
          SubsequenceTransitive(a, b[1..], c[1..]);
        }
      } else {
        SubsequenceTransitive(a, b, c[1..]);
      }
    }
  }

  lemma {:induction false} SubsequenceShorter(a: string, b: string)
    requires IsSubsequence(a, b)
    ensures |a| <= |b|
    decreases |b|
  {
    if a != "" {
      if a[0] == b[0] && IsSubsequence(a[1..], b[1..]) {
        SubsequenceShorter(a[1..], b[1..]);
      } else {
        SubsequenceShorter(a, b[1..]);
      }
    }
  }

  lemma {:induction false} SpanIsSubsequence(s: string, from: nat, lo: nat, hi: nat, to: nat)
    requires from <= lo <= hi <= to <= |s|
    ensures IsSubsequence(s[lo..hi], s[from..to])
  {
    var before, span, after := s[from..lo], s[lo..hi], s[hi..to];
    SubsequenceSelf(span);
    SubsequenceAfter(span, before, span);
    SubsequenceAppend(span, before + span, "", after);
    assert span + "" == span;
    assert before + span + after == s[from..to];
  }

  lemma {:induction false} MatchIsSubsequence(s: string, from: nat, m: Match, rest: string)
    requires from <= m.start <= m.keepFrom <= m.keepTo <= m.end <= |s| && IsSubsequence(rest, s[m.end..])
    ensures IsSubsequence(s[from..m.start] + s[m.keepFrom..m.keepTo] + rest, s[from..])
  {
    var before, kept, whole := s[from..m.start], s[m.keepFrom..m.keepTo], s[m.start..m.end];
    SubsequenceSelf(before);
    SpanIsSubsequence(s, m.start, m.keepFrom, m.keepTo, m.end);
    SubsequenceAppend(before, before, kept, whole);
    SubsequenceAppend(before + kept, before + whole, rest, s[m.end..]);
    assert before + whole + s[m.end..] == s[from..];
  }

  lemma {:induction false} SubstituteIsSubsequence(s: string, matches: seq<Match>, from: nat)
    requires from <= |s| && Disjoint(matches, from, |s|)
    ensures IsSubsequence(Substitute(s, matches, from), s[from..])
    decreases |matches|
  {
    if matches == [] {
      SubsequenceSelf(s[from..]);
    } else {
      SubstituteIsSubsequence(s, matches[1..], matches[0].end);
      MatchIsSubsequence(s, from, matches[0], Substitute(s, matches[1..], matches[0].end));
    }
  }

  lemma {:induction false} PassesGiveSubsequence(passes: seq<Pass>, s: string)
    ensures IsSubsequence(ApplyPasses(passes, s), s)
  {
    if passes == [] {
      SubsequenceSelf(s);
    } else {
      var t := ApplyPasses(passes[..|passes| - 1], s);
      PassesGiveSubsequence(passes[..|passes| - 1], s);
      SubstituteIsSubsequence(t, passes[|passes| - 1](t), 0);
      assert t[0..] == t;
      SubsequenceTransitive(ApplyPasses(passes, s), t, s);
    }
  }

  lemma {:induction false} StripIsSubsequence(s: string)
    ensures IsSubsequence(Strip(s), s)
  {
    var l := StripLeft(s);
    StripLeftSuffix(s);
    StripRightPrefix(l);
    SpanIsSubsequence(s, 0, |s| - |l|, |s|, |s|);
    assert s[|s| - |l|..|s|] == l && s[0..|s|] == s;
    var r := StripRight(l);
    SpanIsSubsequence(l, 0, 0, |r|, |l|);
    assert l[0..|r|] == r && l[0..|l|] == l;
    SubsequenceTransitive(r, l, s);
  }

  /** The downgrade never adds, repeats or reorders characters, so it never makes a text longer. */
  lemma {:induction false} DowngradeIsSubsequence(passes: seq<Pass>, s: string)
    ensures IsSubsequence(MarkdownToText(passes, s), s)
    ensures |MarkdownToText(passes, s)| <= |s|
  {
    PassesGiveSubsequence(passes, s);
    StripIsSubsequence(ApplyPasses(passes, s));
    SubsequenceTransitive(MarkdownToText(passes, s), ApplyPasses(passes, s), s);
    SubsequenceShorter(MarkdownToText(passes, s), s);
  }

  lemma DowngradeNotLonger(passes: seq<Pass>, s: string)
    ensures |MarkdownToText(passes, s)| <= |s|
  {
    DowngradeIsSubsequence(passes, s);
  }

  // ---------------------------------------------------------------- nothing else is lost

  /** How many characters the matches take away. */
  function Removed(matches: seq<Match>): int {
    if matches == [] then 0
    else matches[0].end - matches[0].start - (matches[0].keepTo - matches[0].keepFrom) + Removed(matches[1..])
  }

  /** A pass takes away exactly what its matches drop. */
  lemma {:induction false} SubstituteLength(s: string, matches: seq<Match>, from: nat)
    requires from <= |s| && Disjoint(matches, from, |s|)
    ensures |Substitute(s, matches, from)| == |s| - from - Removed(matches)
    decreases |matches|
  {
    if matches != [] {
      SubstituteLength(s, matches[1..], matches[0].end);
    }
  }

  /** One match is replaced by what it keeps. */
  lemma SubstituteOne(before: string, dropped: string, kept: string, dropped': string, after: string)
    ensures var s, start := before + dropped + kept + dropped' + after, |before| + |dropped|;
            var m := Match(|before|, start + |kept| + |dropped'|, start, start + |kept|);
            Disjoint([m], 0, |s|) && Substitute(s, [m], 0) == before + kept + after
  {
    var s, start := before + dropped + kept + dropped' + after, |before| + |dropped|;
    var m := Match(|before|, start + |kept| + |dropped'|, start, start + |kept|);
    assert [m][1..] == [];
    assert s[0..m.start] == before && s[m.keepFrom..m.keepTo] == kept && s[m.end..] == after;
  }

  /** The passes are applied one after the other, each to the result of the one before. */
  lemma PassesInOrder(passes: seq<Pass>, p: Pass, s: string)
    ensures ApplyPasses([], s) == s
    ensures ApplyPasses(passes + [p], s) ==
            Substitute(ApplyPasses(passes, s), p(ApplyPasses(passes, s)), 0)
  {
    assert (passes + [p])[..|passes|] == passes;
  }

  /** The plain text is the result of the passes without white space at its ends. */
  lemma PlainTextTrimmed(passes: seq<Pass>, s: string)
    ensures Trimmed(MarkdownToText(passes, s))
    ensures exists a, b :: ApplyPasses(passes, s) == a + MarkdownToText(passes, s) + b && Blank(a) && Blank(b)
  {
    StripExact(ApplyPasses(passes, s));
  }
}
