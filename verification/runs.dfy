/** Generic text operations behind the source's regular-expression calls:
    dropping a run of characters at either end, removing characters
    (`replace(/[^…]/g, '')`) and replacing every maximal run of a character
    class by one character (`replace(/[…]+/g, x)`). */
module Runs {

  /** The length of the longest prefix of `s` made of `p`-characters. */
  function LeadingRun(s: string, p: char -> bool): (n: nat)
    ensures n <= |s|
    ensures forall i :: 0 <= i < n ==> p(s[i])
    ensures n < |s| ==> !p(s[n])
  {
    if |s| > 0 && p(s[0]) then 1 + LeadingRun(s[1..], p) else 0
  }

  /** The leading run of `p`-characters is `k` long when the first `k`
      characters satisfy `p` and the next one, if any, does not. */
  lemma LeadingRunIs(s: string, p: char -> bool, k: nat)
    requires k <= |s| && forall i :: 0 <= i < k ==> p(s[i])
    requires k < |s| ==> !p(s[k])
    ensures LeadingRun(s, p) == k
  {
  }

  /** The length of the longest suffix of `s` made of `p`-characters. */
  function TrailingRun(s: string, p: char -> bool): (n: nat)
    ensures n <= |s|
    ensures forall i :: |s| - n <= i < |s| ==> p(s[i])
    ensures n < |s| ==> !p(s[|s| - n - 1])
  {
    if |s| > 0 && p(s[|s| - 1]) then 1 + TrailingRun(s[..|s| - 1], p) else 0
  }

  /** The trailing run of `p`-characters is `k` long when the `k` last
      characters satisfy `p` and the one before them does not. */
  lemma TrailingRunIs(s: string, p: char -> bool, k: nat)
    requires k < |s| && !p(s[|s| - k - 1])
    requires forall i :: |s| - k <= i < |s| ==> p(s[i])
    ensures TrailingRun(s, p) == k
  {
  }

  /** What is left of `s` once its leading characters satisfying `p` are gone. */
  function DropWhile(s: string, p: char -> bool): string {
    s[LeadingRun(s, p)..]
  }

  /** What is left of `s` once its trailing characters satisfying `p` are gone. */
  function DropWhileEnd(s: string, p: char -> bool): string {
    s[..|s| - TrailingRun(s, p)]
  }

  /** The characters of `s` that satisfy `q`, in order. */
  function Filter(s: string, q: char -> bool): (r: string)
    ensures |r| <= |s|
    ensures forall i :: 0 <= i < |r| ==> q(r[i])
  {
    if |s| == 0 then [] else (if q(s[0]) then [s[0]] else []) + Filter(s[1..], q)
  }

  /** `s.replace(/P+/g, x)` for the character class `p`: scanning left to
      right, every maximal run of characters satisfying `p` becomes the single
      character `x`; everything else is copied. */
  function ReplaceRuns(s: string, p: char -> bool, x: char): (r: string)
    ensures |r| <= |s|
    ensures forall i :: 0 <= i < |r| ==> r[i] == x || !p(r[i])
    ensures |s| > 0 ==> |r| > 0 && r[0] == (if p(s[0]) then x else s[0])
    ensures p(x) ==> forall i, j :: 0 <= i < |r| && 0 <= j < |r| && j == i + 1 ==> !(p(r[i]) && p(r[j]))
    decreases |s|
  {
    if |s| == 0 then []
    else if p(s[0]) then [x] + ReplaceRuns(DropWhile(s, p), p, x)
    else [s[0]] + ReplaceRuns(s[1..], p, x)
  }

  /** The replacement introduces no character outside a class that holds of
      `x` and of every character of `s`. */
  lemma {:induction false} ReplaceRunsStaysIn(s: string, p: char -> bool, x: char, q: char -> bool)
    requires forall i :: 0 <= i < |s| ==> q(s[i])
    requires q(x)
    ensures forall i :: 0 <= i < |ReplaceRuns(s, p, x)| ==> q(ReplaceRuns(s, p, x)[i])
    decreases |s|
  {
    if |s| > 0 {
      if p(s[0]) {
        var d := DropWhile(s, p);
        ReplaceRunsStaysIn(d, p, x, q);
      } else {
        ReplaceRunsStaysIn(s[1..], p, x, q);
      }
    }
  }

  /** Dropping a leading run stops inside `a` when `a` holds a character
      outside the class. */
  lemma {:induction false} DropWhileAppendStops(a: string, b: string, p: char -> bool, k: nat)
    requires k < |a| && !p(a[k])
    ensures DropWhile(a + b, p) == DropWhile(a, p) + b
    decreases |a|
  {
    if p(a[0]) {
      assert (a + b)[1..] == a[1..] + b;
      DropWhileAppendStops(a[1..], b, p, k - 1);
    }
  }

  /** Dropping a leading run passes over an `a` made only of the class. */
  lemma {:induction false} DropWhileAppendPasses(a: string, b: string, p: char -> bool)
    requires forall i :: 0 <= i < |a| ==> p(a[i])
    ensures DropWhile(a + b, p) == DropWhile(b, p)
    decreases |a|
  {
    if |a| == 0 {
      assert a + b == b;
    } else {
      assert (a + b)[1..] == a[1..] + b;
      DropWhileAppendPasses(a[1..], b, p);
    }
  }

  /** A nonempty run made only of `p`-characters collapses to the single `x`. */
  lemma ReplaceRunsWholeRun(s: string, p: char -> bool, x: char)
    requires |s| > 0
    requires forall i :: 0 <= i < |s| ==> p(s[i])
    ensures ReplaceRuns(s, p, x) == [x]
  {
    assert DropWhile(s, p) == [];
  }

  /** Cutting the text at a place that is not inside a run of `p`-characters
      commutes with the replacement. */
  lemma {:induction false} ReplaceRunsAppend(a: string, b: string, p: char -> bool, x: char)
    requires |a| == 0 || |b| == 0 || !p(a[|a| - 1]) || !p(b[0])
    ensures ReplaceRuns(a + b, p, x) == ReplaceRuns(a, p, x) + ReplaceRuns(b, p, x)
    decreases |a|, 1
  {
    if |a| == 0 {
      assert a + b == b;
      assert ReplaceRuns(a, p, x) == [];
    } else if |b| == 0 {
      assert a + b == a;
      assert ReplaceRuns(b, p, x) == [];
    } else if !p(a[0]) {
      ReplaceRunsAppendCopied(a, b, p, x);
    } else if |DropWhile(a, p)| == 0 {
      ReplaceRunsAppendWholeRun(a, b, p, x);
    } else {
      ReplaceRunsAppendPartRun(a, b, p, x);
    }
  }

  lemma {:induction false} ReplaceRunsAppendCopied(a: string, b: string, p: char -> bool, x: char)
    requires |a| > 0 && |b| > 0 && !p(a[0])
    requires !p(a[|a| - 1]) || !p(b[0])
    ensures ReplaceRuns(a + b, p, x) == ReplaceRuns(a, p, x) + ReplaceRuns(b, p, x)
    decreases |a|, 0
  {
    assert (a + b)[0] == a[0] && (a + b)[1..] == a[1..] + b;
    ReplaceRunsAppend(a[1..], b, p, x);
    assert ReplaceRuns(a + b, p, x) == [a[0]] + ReplaceRuns(a[1..] + b, p, x);
  }

  lemma ReplaceRunsAppendWholeRun(a: string, b: string, p: char -> bool, x: char)
    requires |a| > 0 && |b| > 0 && p(a[0]) && |DropWhile(a, p)| == 0
    requires !p(a[|a| - 1]) || !p(b[0])
    ensures ReplaceRuns(a + b, p, x) == ReplaceRuns(a, p, x) + ReplaceRuns(b, p, x)
  {
    DropWhileAppendPasses(a, b, p);
    assert DropWhile(b, p) == b;
    assert (a + b)[0] == a[0];
    assert ReplaceRuns(a + b, p, x) == [x] + ReplaceRuns(b, p, x);
    assert ReplaceRuns([], p, x) == [];
    assert ReplaceRuns(a, p, x) == [x];
  }

  lemma {:induction false} ReplaceRunsAppendPartRun(a: string, b: string, p: char -> bool, x: char)
    requires |a| > 0 && |b| > 0 && p(a[0]) && |DropWhile(a, p)| > 0
    requires !p(a[|a| - 1]) || !p(b[0])
    ensures ReplaceRuns(a + b, p, x) == ReplaceRuns(a, p, x) + ReplaceRuns(b, p, x)
    decreases |a|, 0
  {
    var d := DropWhile(a, p);
    DropWhileAppendStops(a, b, p, |a| - |d|);
    assert d[|d| - 1] == a[|a| - 1];
    ReplaceRunsAppend(d, b, p, x);
    assert (a + b)[0] == a[0];
    assert ReplaceRuns(a + b, p, x) == [x] + ReplaceRuns(d + b, p, x);
  }

  /** The number of maximal runs of `p`-characters in `s`. */
  function CountRuns(s: string, p: char -> bool): nat
    decreases |s|
  {
    if |s| == 0 then 0
    else if p(s[0]) then 1 + CountRuns(DropWhile(s, p), p)
    else CountRuns(s[1..], p)
  }

  /** A text without `p`-characters has no runs of them. */
  lemma {:induction false} CountRunsNone(s: string, p: char -> bool)
    requires forall i :: 0 <= i < |s| ==> !p(s[i])
    ensures CountRuns(s, p) == 0
    decreases |s|
  {
    if |s| > 0 {
      CountRunsNone(s[1..], p);
    }
  }

  /** Past a prefix free of `p`-characters, the first run counts once and
      counting resumes after it. */
  lemma {:induction false} CountRunsSkips(s: string, a: nat, p: char -> bool)
    requires a < |s| && p(s[a])
    requires forall i :: 0 <= i < a ==> !p(s[i])
    ensures CountRuns(s, p) == 1 + CountRuns(DropWhile(s[a..], p), p)
    decreases a
  {
    if a > 0 {
      assert s[1..][a - 1..] == s[a..];
      CountRunsSkips(s[1..], a - 1, p);
    }
  }

  lemma {:induction false} FilterAppend(a: string, b: string, q: char -> bool)
    ensures Filter(a + b, q) == Filter(a, q) + Filter(b, q)
    decreases |a|
  {
    if |a| == 0 {
      assert a + b == b;
    } else {
      assert (a + b)[1..] == a[1..] + b;
      FilterAppend(a[1..], b, q);
    }
  }

  lemma {:induction false} FilterNone(s: string, q: char -> bool)
    requires forall i :: 0 <= i < |s| ==> !q(s[i])
    ensures Filter(s, q) == []
    decreases |s|
  {
    if |s| > 0 {
      FilterNone(s[1..], q);
    }
  }

  /** A prefix without `q`-characters contributes nothing to the filter. */
  lemma FilterSkipsPrefix(s: string, k: nat, q: char -> bool)
    requires k <= |s|
    requires forall i :: 0 <= i < k ==> !q(s[i])
    ensures Filter(s[k..], q) == Filter(s, q)
  {
    FilterNone(s[..k], q);
    assert s[..k] + s[k..] == s;
    FilterAppend(s[..k], s[k..], q);
  }

  /** A suffix without `q`-characters contributes nothing to the filter. */
  lemma FilterSkipsSuffix(s: string, k: nat, q: char -> bool)
    requires k <= |s|
    requires forall i :: k <= i < |s| ==> !q(s[i])
    ensures Filter(s[..k], q) == Filter(s, q)
  {
    FilterNone(s[k..], q);
    assert s[..k] + s[k..] == s;
    FilterAppend(s[..k], s[k..], q);
  }

  /** Filtering for a class the replacement does not touch sees through the
      replacement: the `q`-characters of `s` survive, in order, and no new
      ones appear. */
  lemma {:induction false} ReplaceRunsKeepsOthers(s: string, p: char -> bool, x: char, q: char -> bool)
    requires forall c :: p(c) ==> !q(c)
    requires !q(x)
    ensures Filter(ReplaceRuns(s, p, x), q) == Filter(s, q)
    decreases |s|
  {
    if |s| == 0 {
    } else if p(s[0]) {
      var d := DropWhile(s, p);
      FilterSkipsPrefix(s, |s| - |d|, q);
      ReplaceRunsKeepsOthers(d, p, x, q);
      FilterAppend([x], ReplaceRuns(d, p, x), q);
    } else {
      assert s == [s[0]] + s[1..];
      FilterAppend([s[0]], s[1..], q);
      ReplaceRunsKeepsOthers(s[1..], p, x, q);
      FilterAppend([s[0]], ReplaceRuns(s[1..], p, x), q);
    }
  }

  /** A text in which every `p`-character is already `x` and no two
      `p`-characters are adjacent is left unchanged by the replacement. */
  lemma {:induction false} ReplaceRunsFixpoint(s: string, p: char -> bool, x: char)
    requires forall i :: 0 <= i < |s| && p(s[i]) ==> s[i] == x
    requires forall i, j :: 0 <= i < |s| && 0 <= j < |s| && j == i + 1 ==> !(p(s[i]) && p(s[j]))
    ensures ReplaceRuns(s, p, x) == s
    decreases |s|
  {
    if |s| > 0 {
      if p(s[0]) {
        var d := DropWhile(s, p);
        assert |s| > 1 ==> !p(s[1]);
        assert d == s[1..];
      }
      ReplaceRunsFixpoint(s[1..], p, x);
    }
  }

  /** Filtering with a class that every character already satisfies changes nothing. */
  lemma {:induction false} FilterAll(s: string, q: char -> bool)
    requires forall i :: 0 <= i < |s| ==> q(s[i])
    ensures Filter(s, q) == s
    decreases |s|
  {
    if |s| > 0 {
      FilterAll(s[1..], q);
    }
  }
}
