/** A text seen as words separated by runs of separator characters. This is
    the reference view against which the slug and word-count code is
    checked: a slug is the title's words joined by single hyphens. */
module Tokens {
  import opened Runs

  /** `seps[0] + ws[0] + seps[1] + … + ws[n-1] + seps[n]`. */
  function Interleave(ws: seq<string>, seps: seq<string>): string
    requires |seps| == |ws| + 1
    decreases |ws|
  {
    if |ws| == 0 then seps[0] else seps[0] + ws[0] + Interleave(ws[1..], seps[1..])
  }

  /** `ws.join(sep)`. */
  function JoinWith(ws: seq<string>, sep: string): string
    decreases |ws|
  {
    if |ws| == 0 then [] else if |ws| == 1 then ws[0] else ws[0] + sep + JoinWith(ws[1..], sep)
  }

  /** A word: nonempty, and free of `p`-characters. */
  predicate IsWord(w: string, p: char -> bool) {
    |w| > 0 && forall i :: 0 <= i < |w| ==> !p(w[i])
  }

  /** A separator: made of `p`-characters only (possibly empty). */
  predicate IsSeparator(s: string, p: char -> bool) {
    forall i :: 0 <= i < |s| ==> p(s[i])
  }

  /** Words are words, separators are separators, and consecutive words are
      kept apart by a nonempty separator (the outer two may be empty). */
  predicate WellSplit(ws: seq<string>, seps: seq<string>, p: char -> bool) {
    && |seps| == |ws| + 1
    && (forall k :: 0 <= k < |ws| ==> IsWord(ws[k], p))
    && (forall k :: 0 <= k < |seps| ==> IsSeparator(seps[k], p))
    && (forall k :: 0 < k < |ws| ==> |seps[k]| > 0)
  }

  /** The words of `s` (its maximal runs of characters outside `p`) and the
      separator runs around them; together they spell `s` again. */
  function Tokenize(s: string, p: char -> bool): (t: (seq<string>, seq<string>))
    ensures WellSplit(t.0, t.1, p)
    ensures Interleave(t.0, t.1) == s
    ensures |s| > 0 && p(s[0]) ==> |t.1[0]| > 0
    decreases |s|
  {
    var rest := DropWhile(s, p);
    var lead := s[..|s| - |rest|];
    assert s == lead + rest;
    assert IsSeparator(lead, p);
    if |rest| == 0 then
      ([], [s])
    else
      var after := DropWhile(rest, c => !p(c));
      var word := rest[..|rest| - |after|];
      assert rest == word + after;
      assert IsWord(word, p);
      var t := Tokenize(after, p);
      assert |t.0| > 0 ==> |t.1[0]| > 0;
      TokenizeCons(lead, word, t.0, t.1, p);
      ([word] + t.0, [lead] + t.1)
  }

  /** Putting one more word and its leading separator in front of a
      well-formed split keeps it well formed. */
  lemma TokenizeCons(lead: string, word: string, ws: seq<string>, seps: seq<string>, p: char -> bool)
    requires WellSplit(ws, seps, p)
    requires IsSeparator(lead, p)
    requires IsWord(word, p)
    requires |ws| > 0 ==> |seps[0]| > 0
    ensures WellSplit([word] + ws, [lead] + seps, p)
    ensures Interleave([word] + ws, [lead] + seps) == lead + (word + Interleave(ws, seps))
  {
    ConsWellSplit(lead, word, ws, seps, p);
    var ws', seps' := [word] + ws, [lead] + seps;
    assert ws'[1..] == ws && seps'[1..] == seps;
  }

  lemma ConsWellSplit(lead: string, word: string, ws: seq<string>, seps: seq<string>, p: char -> bool)
    requires WellSplit(ws, seps, p)
    requires IsSeparator(lead, p)
    requires IsWord(word, p)
    requires |ws| > 0 ==> |seps[0]| > 0
    ensures WellSplit([word] + ws, [lead] + seps, p)
  {
    var ws', seps' := [word] + ws, [lead] + seps;
    assert forall k :: 0 < k < |ws'| ==> ws'[k] == ws[k - 1];
    assert forall k :: 0 < k < |seps'| ==> seps'[k] == seps[k - 1];
  }

  /** Replacing runs of a class that no word contains acts on the separators alone. */
  lemma {:induction false} ReplaceRunsInterleave(ws: seq<string>, seps: seq<string>, p: char -> bool, x: char)
    requires |seps| == |ws| + 1
    requires forall k :: 0 <= k < |ws| ==> IsWord(ws[k], p)
    ensures ReplaceRuns(Interleave(ws, seps), p, x) == Interleave(ws, ReplaceEach(seps, p, x))
    decreases |ws|
  {
    if |ws| > 0 {
      ReplaceRunsInterleave(ws[1..], seps[1..], p, x);
      ReplaceRunsInterleaveStep(ws, seps, p, x);
    }
  }

  /** One word and the separator before it, given the claim for the rest. */
  lemma ReplaceRunsInterleaveStep(ws: seq<string>, seps: seq<string>, p: char -> bool, x: char)
    requires |seps| == |ws| + 1 && |ws| > 0
    requires IsWord(ws[0], p)
    requires ReplaceRuns(Interleave(ws[1..], seps[1..]), p, x) == Interleave(ws[1..], ReplaceEach(seps[1..], p, x))
    ensures ReplaceRuns(Interleave(ws, seps), p, x) == Interleave(ws, ReplaceEach(seps, p, x))
  {
    var m := ReplaceEach(seps, p, x);
    var tail := Interleave(ws[1..], seps[1..]);
    assert Interleave(ws, seps) == seps[0] + (ws[0] + tail);
    ReplaceRunsSeparatorWord(seps[0], ws[0], tail, p, x);
    assert ReplaceEach(seps[1..], p, x) == m[1..];
    assert Interleave(ws, m) == m[0] + (ws[0] + Interleave(ws[1..], m[1..]));
  }

  /** A separator followed by a word: each part is replaced on its own. */
  lemma ReplaceRunsSeparatorWord(sep: string, w: string, tail: string, p: char -> bool, x: char)
    requires IsWord(w, p)
    ensures ReplaceRuns(sep + (w + tail), p, x) == ReplaceRuns(sep, p, x) + (w + ReplaceRuns(tail, p, x))
  {
    ReplaceRunsAppend(sep, w + tail, p, x);
    ReplaceRunsWordFirst(w, tail, p, x);
  }

  /** A word free of the class passes through the replacement unchanged. */
  lemma ReplaceRunsWordFirst(w: string, tail: string, p: char -> bool, x: char)
    requires IsWord(w, p)
    ensures ReplaceRuns(w + tail, p, x) == w + ReplaceRuns(tail, p, x)
  {
    ReplaceRunsAppend(w, tail, p, x);
    ReplaceRunsFixpoint(w, p, x);
  }

  /** Each separator with its runs replaced. */
  function ReplaceEach(seps: seq<string>, p: char -> bool, x: char): (m: seq<string>)
    ensures |m| == |seps|
  {
    seq(|seps|, k requires 0 <= k < |seps| => ReplaceRuns(seps[k], p, x))
  }

  /** With every inner separator equal to `sep`, the interleaving is the
      words joined by `sep` between the outer separators. */
  lemma {:induction false} InterleaveUniform(ws: seq<string>, seps: seq<string>, sep: string)
    requires |seps| == |ws| + 1 && |ws| > 0
    requires forall k :: 0 < k < |ws| ==> seps[k] == sep
    ensures Interleave(ws, seps) == seps[0] + JoinWith(ws, sep) + seps[|ws|]
    decreases |ws|
  {
    if |ws| == 1 {
      assert Interleave(ws[1..], seps[1..]) == seps[1];
    } else {
      InterleaveUniform(ws[1..], seps[1..], sep);
    }
  }

  /** A join of nonempty words starts with the first word's first character
      and ends with the last word's last character. */
  lemma {:induction false} JoinWithEnds(ws: seq<string>, sep: string)
    requires |ws| > 0 && forall k :: 0 <= k < |ws| ==> |ws[k]| > 0
    ensures |JoinWith(ws, sep)| > 0
    ensures JoinWith(ws, sep)[0] == ws[0][0]
    ensures JoinWith(ws, sep)[|JoinWith(ws, sep)| - 1] == ws[|ws| - 1][|ws[|ws| - 1]| - 1]
    decreases |ws|
  {
    if |ws| > 1 {
      JoinWithEnds(ws[1..], sep);
    }
  }

  /** A class holding of every character of an interleaving holds of every
      character of its words. */
  lemma {:induction false} InterleaveKeepsClass(ws: seq<string>, seps: seq<string>, q: char -> bool)
    requires |seps| == |ws| + 1
    requires forall i :: 0 <= i < |Interleave(ws, seps)| ==> q(Interleave(ws, seps)[i])
    ensures forall k :: 0 <= k < |ws| ==> forall i :: 0 <= i < |ws[k]| ==> q(ws[k][i])
    decreases |ws|
  {
    if |ws| > 0 {
      var tail := Interleave(ws[1..], seps[1..]);
      var s := Interleave(ws, seps);
      assert s == seps[0] + ws[0] + tail;
      assert forall i :: 0 <= i < |ws[0]| ==> s[|seps[0]| + i] == ws[0][i];
      assert forall i :: 0 <= i < |tail| ==> s[|seps[0]| + |ws[0]| + i] == tail[i];
      InterleaveKeepsClass(ws[1..], seps[1..], q);
      assert forall k :: 1 <= k < |ws| ==> ws[k] == ws[1..][k - 1];
    }
  }
}
