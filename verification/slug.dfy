/** `generateSlug`: a title becomes a URL- and directory-safe identifier by
    lowercasing, dropping every character outside `[a-z0-9\s-]`, turning each
    whitespace run into `-`, collapsing hyphen runs and trimming hyphens from
    both ends. */
module Slug {
  import opened Chars
  import opened Runs
  import opened Tokens

  /** A well-formed slug: only `a`-`z`, `0`-`9` and `-`, no hyphen at either
      end and never two hyphens in a row. */
  predicate IsSlug(s: string) {
    && (forall i :: 0 <= i < |s| ==> IsSlugChar(s[i]))
    && (|s| > 0 ==> s[0] != '-' && s[|s| - 1] != '-')
    && (forall i, j :: 0 <= i < |s| && 0 <= j < |s| && j == i + 1 ==> !(s[i] == '-' && s[j] == '-'))
  }

  /** Step 1, `toLowerCase()` on ASCII: exactly the upper-case letters change,
      and none are left. */
  function Lower(s: string): (r: string)
    ensures |r| == |s|
    ensures forall i :: 0 <= i < |r| ==> !IsUpper(r[i])
    ensures forall i :: 0 <= i < |s| ==> (r[i] == s[i] <==> !IsUpper(s[i]))
    ensures forall i :: 0 <= i < |s| && IsUpper(s[i]) ==> r[i] as int == s[i] as int + 32
  {
    seq(|s|, i requires 0 <= i < |s| => LowerChar(s[i]))
  }

  /** Step 2, `replace(/[^a-z0-9\s-]/g, '')`: only characters of the class
      are left. */
  function RemoveDisallowed(s: string): (r: string)
    ensures forall i :: 0 <= i < |r| ==> IsKept(r[i])
  {
    Filter(s, IsKept)
  }

  /** Step 2 loses none of the letters and digits, and leaves a text made of
      the class alone unchanged. */
  lemma RemoveDisallowedKeeps(s: string)
    ensures Filter(RemoveDisallowed(s), IsLowerAlnum) == Filter(s, IsLowerAlnum)
    ensures (forall i :: 0 <= i < |s| ==> IsKept(s[i])) ==> RemoveDisallowed(s) == s
  {
    FilterKeepsSubclass(s);
    if forall i :: 0 <= i < |s| ==> IsKept(s[i]) {
      FilterAll(s, IsKept);
    }
  }

  /** Steps 1 and 2: the title's text before separators are normalised. */
  function Filtered(title: string): string {
    RemoveDisallowed(Lower(title))
  }

  /** Step 3, `replace(/\s+/g, '-')`: no whitespace is left. */
  function SpacesToHyphens(s: string): (r: string)
    ensures forall i :: 0 <= i < |r| ==> !IsSpace(r[i])
  {
    ReplaceRuns(s, IsSpace, '-')
  }

  /** Step 3 leaves the letters and digits as they were, and a text without
      whitespace unchanged. */
  lemma SpacesToHyphensKeeps(s: string)
    ensures Filter(SpacesToHyphens(s), IsLowerAlnum) == Filter(s, IsLowerAlnum)
    ensures (forall i :: 0 <= i < |s| ==> !IsSpace(s[i])) ==> SpacesToHyphens(s) == s
  {
    ReplaceRunsKeepsOthers(s, IsSpace, '-', IsLowerAlnum);
    if forall i :: 0 <= i < |s| ==> !IsSpace(s[i]) {
      ReplaceRunsFixpoint(s, IsSpace, '-');
    }
  }

  /** Step 4, `replace(/-+/g, '-')`: no two hyphens are left side by side. */
  function CollapseHyphens(s: string): (r: string)
    ensures forall i, j :: 0 <= i < |r| && 0 <= j < |r| && j == i + 1 ==> !(r[i] == '-' && r[j] == '-')
  {
    ReplaceRuns(s, IsHyphen, '-')
  }

  /** Step 4 leaves the letters and digits as they were, and a text without
      two adjacent hyphens unchanged. */
  lemma CollapseHyphensKeeps(s: string)
    ensures Filter(CollapseHyphens(s), IsLowerAlnum) == Filter(s, IsLowerAlnum)
    ensures (forall i, j :: 0 <= i < |s| && 0 <= j < |s| && j == i + 1 ==> !(s[i] == '-' && s[j] == '-'))
            ==> CollapseHyphens(s) == s
  {
    ReplaceRunsKeepsOthers(s, IsHyphen, '-', IsLowerAlnum);
    if forall i, j :: 0 <= i < |s| && 0 <= j < |s| && j == i + 1 ==> !(s[i] == '-' && s[j] == '-') {
      ReplaceRunsFixpoint(s, IsHyphen, '-');
    }
  }

  /** Step 5, `replace(/^-+|-+$/g, '')`: the result is the part of `s` between
      its leading and its trailing hyphen runs (empty when `s` is all hyphens). */
  function TrimHyphens(s: string): (r: string)
    ensures exists a, b ::
      && 0 <= a <= b <= |s| && r == s[a..b]
      && (forall i :: 0 <= i < a ==> s[i] == '-')
      && (forall i :: b <= i < |s| ==> s[i] == '-')
    ensures |r| > 0 ==> r[0] != '-' && r[|r| - 1] != '-'
  {
    var d := DropWhile(s, IsHyphen);
    var r := DropWhileEnd(d, IsHyphen);
    var a, b := |s| - |d|, |s| - |d| + |r|;
    assert r == s[a..b];
    assert forall i :: b <= i < |s| ==> s[i] == d[i - a];
    r
  }

  /** The whole pipeline; its result is always a well-formed slug. */
  function GenerateSlug(title: string): (slug: string)
    ensures IsSlug(slug)
  {
    var collapsed := CollapseHyphens(SpacesToHyphens(Filtered(title)));
    CollapsedIsSlugText(title);
    TrimmedIsSlug(collapsed);
    TrimHyphens(collapsed)
  }

  /** After step 4 only slug characters are left and no two hyphens touch. */
  lemma CollapsedIsSlugText(title: string)
    ensures var c := CollapseHyphens(SpacesToHyphens(Filtered(title)));
      && (forall i :: 0 <= i < |c| ==> IsSlugChar(c[i]))
      && (forall i, j :: 0 <= i < |c| && 0 <= j < |c| && j == i + 1 ==> !(c[i] == '-' && c[j] == '-'))
  {
    var kept := Filtered(title);
    var spaced := SpacesToHyphens(kept);
    ReplaceRunsStaysIn(kept, IsSpace, '-', IsKept);
    assert forall i :: 0 <= i < |spaced| ==> IsSlugChar(spaced[i]);
    ReplaceRunsStaysIn(spaced, IsHyphen, '-', IsSlugChar);
  }

  /** Step 5 turns such a text into a slug. */
  lemma TrimmedIsSlug(c: string)
    requires forall i :: 0 <= i < |c| ==> IsSlugChar(c[i])
    requires forall i, j :: 0 <= i < |c| && 0 <= j < |c| && j == i + 1 ==> !(c[i] == '-' && c[j] == '-')
    ensures IsSlug(TrimHyphens(c))
  {
    var r := TrimHyphens(c);
    var a, b :| 0 <= a <= b <= |c| && r == c[a..b];
    assert forall i :: 0 <= i < |r| ==> r[i] == c[a + i];
  }

  /** A slug passes through every step unchanged. */
  lemma SlugFixpoint(s: string)
    requires IsSlug(s)
    ensures GenerateSlug(s) == s
  {
    assert Lower(s) == s;
    assert forall i :: 0 <= i < |s| ==> IsKept(s[i]);
    RemoveDisallowedKeeps(s);
    assert forall i :: 0 <= i < |s| ==> !IsSpace(s[i]);
    SpacesToHyphensKeeps(s);
    CollapseHyphensKeeps(s);
    TrimFixesSlug(s);
  }

  lemma TrimFixesSlug(s: string)
    requires IsSlug(s)
    ensures TrimHyphens(s) == s
  {
    var d := DropWhile(s, IsHyphen);
    assert d == s;
    assert DropWhileEnd(d, IsHyphen) == s;
  }

  /** Slug generation is idempotent. */
  lemma SlugIdempotent(title: string)
    ensures GenerateSlug(GenerateSlug(title)) == GenerateSlug(title)
  {
    SlugFixpoint(GenerateSlug(title));
  }

  /** The slug keeps exactly the letters and digits of the lowercased title, in
      order: only separators are added, merged or removed. */
  lemma SlugKeepsLettersAndDigits(title: string)
    ensures Filter(GenerateSlug(title), IsLowerAlnum) == Filter(Lower(title), IsLowerAlnum)
  {
    var lowered := Lower(title);
    RemoveDisallowedKeeps(lowered);
    ReplacementsKeepLettersAndDigits(RemoveDisallowed(lowered));
    TrimKeepsLettersAndDigits(CollapseHyphens(SpacesToHyphens(RemoveDisallowed(lowered))));
  }

  /** Steps 3 and 4 only touch separators. */
  lemma ReplacementsKeepLettersAndDigits(kept: string)
    ensures Filter(CollapseHyphens(SpacesToHyphens(kept)), IsLowerAlnum) == Filter(kept, IsLowerAlnum)
  {
    SpacesToHyphensKeeps(kept);
    CollapseHyphensKeeps(SpacesToHyphens(kept));
  }

  lemma TrimKeepsLettersAndDigits(s: string)
    ensures Filter(TrimHyphens(s), IsLowerAlnum) == Filter(s, IsLowerAlnum)
  {
    var d := DropWhile(s, IsHyphen);
    FilterSkipsPrefix(s, |s| - |d|, IsLowerAlnum);
    FilterSkipsSuffix(d, |DropWhileEnd(d, IsHyphen)|, IsLowerAlnum);
  }

  lemma {:induction false} FilterKeepsSubclass(s: string)
    ensures Filter(Filter(s, IsKept), IsLowerAlnum) == Filter(s, IsLowerAlnum)
    decreases |s|
  {
    if |s| > 0 {
      FilterKeepsSubclass(s[1..]);
      var head := if IsKept(s[0]) then [s[0]] else [];
      FilterAppend(head, Filter(s[1..], IsKept), IsLowerAlnum);
    }
  }

  /** The slug is empty exactly when the title has no ASCII letter or digit. */
  lemma SlugEmptyIff(title: string)
    ensures GenerateSlug(title) == [] <==> Filter(Lower(title), IsLowerAlnum) == []
  {
    var slug := GenerateSlug(title);
    SlugKeepsLettersAndDigits(title);
    if slug == [] {
      assert Filter(slug, IsLowerAlnum) == [];
    } else {
      FilterOfAlnumStart(slug);
    }
  }

  lemma FilterOfAlnumStart(s: string)
    requires |s| > 0 && IsLowerAlnum(s[0])
    ensures Filter(s, IsLowerAlnum) != []
  {
    assert Filter(s, IsLowerAlnum) == [s[0]] + Filter(s[1..], IsLowerAlnum);
  }

  /** After steps 3 and 4 a separator run of whitespace and hyphens is a
      single hyphen, or nothing when it was empty. */
  lemma HyphenatedSeparator(sep: string)
    requires IsSeparator(sep, IsSep)
    ensures CollapseHyphens(SpacesToHyphens(sep)) == (if |sep| > 0 then "-" else "")
  {
    var h := SpacesToHyphens(sep);
    ReplaceRunsStaysIn(sep, IsSpace, '-', IsSep);
    assert forall i :: 0 <= i < |h| ==> IsHyphen(h[i]);
    if |sep| > 0 {
      ReplaceRunsWholeRun(h, IsHyphen, '-');
    } else {
      assert h == [];
    }
  }

  /** Step 5 strips hyphen runs around a text that starts and ends otherwise. */
  lemma TrimAround(h1: string, j: string, h2: string)
    requires IsSeparator(h1, IsHyphen) && IsSeparator(h2, IsHyphen)
    requires |j| > 0 && j[0] != '-' && j[|j| - 1] != '-'
    ensures TrimHyphens(h1 + j + h2) == j
  {
    var s := h1 + j + h2;
    var n := LeadingRun(s, IsHyphen);
    assert s[|h1|] == j[0];
    assert forall i :: 0 <= i < |h1| ==> s[i] == h1[i];
    assert n == |h1|;
    var d := DropWhile(s, IsHyphen);
    assert d == j + h2;
    var m := TrailingRun(d, IsHyphen);
    assert d[|j| - 1] == j[|j| - 1];
    assert forall i :: |j| <= i < |d| ==> d[i] == h2[i - |j|];
    assert m == |h2|;
  }

  /** One hyphen for each nonempty separator, nothing for an empty one. */
  function HyphenEach(seps: seq<string>): (hs: seq<string>)
    ensures |hs| == |seps|
  {
    seq(|seps|, k requires 0 <= k < |seps| => if |seps[k]| > 0 then "-" else "")
  }

  /** Steps 3 and 4 act on the separators of a split alone. */
  lemma CollapseSplit(ws: seq<string>, seps: seq<string>)
    requires WellSplit(ws, seps, IsSep)
    ensures CollapseHyphens(SpacesToHyphens(Interleave(ws, seps))) == Interleave(ws, HyphenEach(seps))
  {
    assert forall k :: 0 <= k < |ws| ==> IsWord(ws[k], IsSpace) && IsWord(ws[k], IsHyphen);
    ReplaceRunsInterleave(ws, seps, IsSpace, '-');
    var s1 := ReplaceEach(seps, IsSpace, '-');
    ReplaceRunsInterleave(ws, s1, IsHyphen, '-');
    var s2 := ReplaceEach(s1, IsHyphen, '-');
    forall k | 0 <= k < |seps|
      ensures s2[k] == HyphenEach(seps)[k]
    {
      HyphenatedSeparator(seps[k]);
    }
    assert s2 == HyphenEach(seps);
  }

  /** Steps 3 to 5 turn words separated by runs of whitespace and hyphens into
      the same words joined by single hyphens. */
  lemma SlugOfSplit(ws: seq<string>, seps: seq<string>)
    requires WellSplit(ws, seps, IsSep)
    ensures TrimHyphens(CollapseHyphens(SpacesToHyphens(Interleave(ws, seps)))) == JoinWith(ws, "-")
  {
    CollapseSplit(ws, seps);
    var hs := HyphenEach(seps);
    if |ws| == 0 {
      assert Interleave(ws, hs) == hs[0];
      assert TrimHyphens(hs[0]) == [];
    } else {
      InterleaveUniform(ws, hs, "-");
      JoinWithEnds(ws, "-");
      TrimAround(hs[0], JoinWith(ws, "-"), hs[|ws|]);
    }
  }

  /** Reading the slug off a split of the title's filtered text. */
  lemma SlugFromSplit(title: string, ws: seq<string>, seps: seq<string>)
    requires WellSplit(ws, seps, IsSep)
    requires Interleave(ws, seps) == Filtered(title)
    ensures GenerateSlug(title) == JoinWith(ws, "-")
  {
    SlugOfSplit(ws, seps);
  }

  /** Reference definition: the slug is the words of the lowercased title
      (its maximal runs of `a`-`z` and `0`-`9` once every other non-separator
      character is deleted) joined by single hyphens. */
  lemma SlugIsHyphenatedWords(title: string)
    ensures var words := Tokenize(Filtered(title), IsSep).0;
      && (forall k :: 0 <= k < |words| ==> forall i :: 0 <= i < |words[k]| ==> IsLowerAlnum(words[k][i]))
      && GenerateSlug(title) == JoinWith(words, "-")
  {
    var text := Filtered(title);
    var t := Tokenize(text, IsSep);
    SlugFromSplit(title, t.0, t.1);
    InterleaveKeepsClass(t.0, t.1, IsKept);
  }

  /** Steps 1 and 2 work character by character, so they distribute over
      concatenation. */
  lemma FilteredAppend(a: string, b: string)
    ensures Filtered(a + b) == Filtered(a) + Filtered(b)
  {
    assert Lower(a + b) == Lower(a) + Lower(b);
    FilterAppend(Lower(a), Lower(b), IsKept);
  }

  lemma {:induction false} FilteredInterleave(rawWords: seq<string>, rawSeps: seq<string>, ws: seq<string>, seps: seq<string>)
    requires |rawSeps| == |rawWords| + 1 && |ws| == |rawWords| && |seps| == |rawSeps|
    requires forall k :: 0 <= k < |ws| ==> Filtered(rawWords[k]) == ws[k]
    requires forall k :: 0 <= k < |seps| ==> Filtered(rawSeps[k]) == seps[k]
    ensures Filtered(Interleave(rawWords, rawSeps)) == Interleave(ws, seps)
    decreases |ws|
  {
    if |ws| > 0 {
      var tail := Interleave(rawWords[1..], rawSeps[1..]);
      FilteredAppend(rawSeps[0] + rawWords[0], tail);
      FilteredAppend(rawSeps[0], rawWords[0]);
      FilteredInterleave(rawWords[1..], rawSeps[1..], ws[1..], seps[1..]);
    }
  }

  /** A title cut into pieces whose filtered forms are words and separators
      has as slug those words joined by hyphens. */
  lemma SlugOfPieces(title: string, rawWords: seq<string>, rawSeps: seq<string>, ws: seq<string>, seps: seq<string>)
    requires |rawSeps| == |rawWords| + 1 && |ws| == |rawWords| && |seps| == |rawSeps|
    requires title == Interleave(rawWords, rawSeps)
    requires forall k :: 0 <= k < |ws| ==> Filtered(rawWords[k]) == ws[k]
    requires forall k :: 0 <= k < |seps| ==> Filtered(rawSeps[k]) == seps[k]
    requires WellSplit(ws, seps, IsSep)
    ensures GenerateSlug(title) == JoinWith(ws, "-")
  {
    FilteredInterleave(rawWords, rawSeps, ws, seps);
    SlugFromSplit(title, ws, seps);
  }
}
