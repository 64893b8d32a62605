/** The reading-time estimate of `createBlogPostMeta`: the body is split on
    whitespace runs, every piece counts as a word, 200 words take a minute
    and the minutes are rounded up and rendered as `"<n> min read"`. */
module ReadingTime {
  import opened Results
  import opened Chars
  import opened Runs
  import opened Tokens

  /** Text without whitespace. */
  predicate Unspaced(s: string) {
    forall i :: 0 <= i < |s| ==> !IsSpace(s[i])
  }

  /** `s.split(/\s+/)`: the pieces between the maximal whitespace runs. A
      leading or trailing run leaves an empty piece at that end, and the empty
      text gives the single piece `""`. */
  function SplitOnWhitespace(s: string): (pieces: seq<string>)
    ensures |pieces| == 1 + CountRuns(s, IsSpace)
    ensures forall k :: 0 <= k < |pieces| ==> Unspaced(pieces[k])
    ensures forall k :: 0 < k < |pieces| - 1 ==> |pieces[k]| > 0
    ensures |s| > 0 && !IsSpace(s[0]) ==> |pieces[0]| > 0
    decreases |s|
  {
    var a := LeadingRun(s, NotSpace);
    if a == |s| then
      CountRunsNone(s, IsSpace);
      [s]
    else
      var rest := DropWhile(s[a..], IsSpace);
      CountRunsSkips(s, a, IsSpace);
      assert |rest| > 0 ==> !IsSpace(rest[0]);
      [s[..a]] + SplitOnWhitespace(rest)
  }

  /** `content.split(/\s+/).length`. */
  function WordCount(content: string): (n: nat)
    ensures n >= 1
  {
    |SplitOnWhitespace(content)|
  }

  /** `Math.ceil(wordCount / 200)` on the integers: the least number of whole
      minutes in which 200 words a minute cover the text. */
  function ReadMinutes(wordCount: nat): (minutes: nat)
    ensures 200 * minutes >= wordCount
    ensures minutes == 0 || 200 * (minutes - 1) < wordCount
  {
    (wordCount + 199) / 200
  }

  function DigitChar(d: nat): (c: char)
    requires d < 10
    ensures IsDigit(c)
  {
    ('0' as int + d) as char
  }

  function DigitValue(c: char): (d: nat)
    requires IsDigit(c)
    ensures d < 10
  {
    c as int - '0' as int
  }

  /** The decimal numeral JavaScript prints for a non-negative integer: no
      sign and no leading zeros. */
  predicate IsNumeral(s: string) {
    && |s| > 0
    && (forall i :: 0 <= i < |s| ==> IsDigit(s[i]))
    && (s[0] == '0' ==> |s| == 1)
  }

  /** `${n}` for a natural number. */
  function NatToString(n: nat): (s: string)
    ensures IsNumeral(s)
  {
    if n < 10 then [DigitChar(n)] else NatToString(n / 10) + [DigitChar(n % 10)]
  }

  /** The value of a string of decimal digits. */
  function ParseDecimal(s: string): nat
    requires forall i :: 0 <= i < |s| ==> IsDigit(s[i])
  {
    if |s| == 0 then 0 else 10 * ParseDecimal(s[..|s| - 1]) + DigitValue(s[|s| - 1])
  }

  /** Reading a rendered number gives the number back. */
  lemma {:induction false} NatToStringRoundTrip(n: nat)
    ensures ParseDecimal(NatToString(n)) == n
  {
    if n >= 10 {
      NatToStringRoundTrip(n / 10);
      var s := NatToString(n);
      assert s[..|s| - 1] == NatToString(n / 10);
    }
  }

  /** A numeral is the rendering of its value: every numeral arises in
      exactly one way. */
  lemma {:induction false} NumeralRoundTrip(s: string)
    requires IsNumeral(s)
    ensures NatToString(ParseDecimal(s)) == s
    decreases |s|
  {
    if |s| > 1 {
      var t := s[..|s| - 1];
      assert IsNumeral(t);
      NumeralRoundTrip(t);
      NumeralPositive(t);
      var v := ParseDecimal(s);
      assert v / 10 == ParseDecimal(t) && v % 10 == DigitValue(s[|s| - 1]);
      assert s == t + [s[|s| - 1]];
    }
  }

  lemma NumeralPositive(s: string)
    requires IsNumeral(s) && s[0] != '0'
    ensures ParseDecimal(s) > 0
  {
    LeadingDigitBound(s);
  }

  /** A string of digits is worth at least its leading digit. */
  lemma {:induction false} LeadingDigitBound(s: string)
    requires |s| > 0 && forall i :: 0 <= i < |s| ==> IsDigit(s[i])
    ensures ParseDecimal(s) >= DigitValue(s[0])
    decreases |s|
  {
    if |s| > 1 {
      LeadingDigitBound(s[..|s| - 1]);
    }
  }

  const MinRead: string := " min read"

  /** `${readTimeMinutes} min read` for a body. */
  function ReadTime(content: string): (text: string)
    ensures ParseReadTime(text) == Some(ReadMinutes(WordCount(content)))
    ensures ParseReadTime(text).value >= 1
  {
    var minutes := ReadMinutes(WordCount(content));
    var text := NatToString(minutes) + MinRead;
    assert text[..|text| - |MinRead|] == NatToString(minutes);
    NatToStringRoundTrip(minutes);
    text
  }

  /** Reads a reading-time label back: a numeral followed by `" min read"`. */
  function ParseReadTime(text: string): (minutes: Option<nat>)
    ensures minutes.Some? ==> NatToString(minutes.value) + MinRead == text
  {
    if |text| >= |MinRead| && text[|text| - |MinRead|..] == MinRead
      && IsNumeral(text[..|text| - |MinRead|])
    then
      var numeral := text[..|text| - |MinRead|];
      NumeralRoundTrip(numeral);
      assert numeral + MinRead == text;
      Some(ParseDecimal(numeral))
    else None
  }

  /** Splitting a word, a single space and more text. */
  lemma SplitWordSpace(w: string, rest: string)
    requires |w| > 0 && Unspaced(w)
    requires |rest| > 0 && !IsSpace(rest[0])
    ensures SplitOnWhitespace(w + " " + rest) == [w] + SplitOnWhitespace(rest)
  {
    var s := w + " " + rest;
    assert s == w + (" " + rest);
    var a := LeadingRun(s, NotSpace);
    assert !NotSpace(s[|w|]);
    assert a == |w|;
    assert s[a..] == " " + rest;
    assert s[..a] == w;
    var d := s[a..];
    assert LeadingRun(d, IsSpace) == 1 by {
      assert d[1..] == rest;
    }
    assert DropWhile(d, IsSpace) == rest;
  }

  /** A body of `n` words separated by single spaces counts `n` words. */
  lemma {:induction false} WordCountOfWords(ws: seq<string>)
    requires |ws| > 0
    requires forall k :: 0 <= k < |ws| ==> IsWord(ws[k], IsSpace)
    ensures WordCount(JoinWith(ws, " ")) == |ws|
    decreases |ws|
  {
    if |ws| == 1 {
      assert SplitOnWhitespace(ws[0]) == [ws[0]];
    } else {
      var rest := JoinWith(ws[1..], " ");
      JoinWithEnds(ws[1..], " ");
      SplitWordSpace(ws[0], rest);
      WordCountOfWords(ws[1..]);
    }
  }

  /** Joining the pieces with single spaces gives the text with every
      whitespace run shrunk to one space: the split loses exactly the extent
      and kind of each run. */
  lemma {:induction false} SplitRejoins(s: string)
    ensures JoinWith(SplitOnWhitespace(s), " ") == ReplaceRuns(s, IsSpace, ' ')
    decreases |s|
  {
    var a := LeadingRun(s, NotSpace);
    if a == |s| {
      ReplaceRunsFixpoint(s, IsSpace, ' ');
    } else {
      var w := s[..a];
      var rest := DropWhile(s[a..], IsSpace);
      var pieces := SplitOnWhitespace(rest);
      assert SplitOnWhitespace(s) == [w] + pieces;
      SplitRejoins(rest);
      RejoinStep(w, pieces, ReplaceRuns(rest, IsSpace, ' '));
      assert s == w + s[a..];
      ReplaceRunsAtSpace(w, s[a..]);
    }
  }

  /** A word joined in front of pieces that rejoin to `replaced`. */
  lemma RejoinStep(w: string, pieces: seq<string>, replaced: string)
    requires |pieces| > 0 && JoinWith(pieces, " ") == replaced
    ensures JoinWith([w] + pieces, " ") == w + ([' '] + replaced)
  {
    JoinWithCons(w, pieces, " ");
    assert w + " " + replaced == w + ([' '] + replaced);
  }

  /** Joining a word in front of at least one more piece. */
  lemma JoinWithCons(w: string, ws: seq<string>, sep: string)
    requires |ws| > 0
    ensures JoinWith([w] + ws, sep) == w + sep + JoinWith(ws, sep)
  {
    assert ([w] + ws)[1..] == ws;
  }

  /** The replacement keeps a text without whitespace and puts one space
      for the whitespace run that follows it. */
  lemma ReplaceRunsAtSpace(head: string, tail: string)
    requires Unspaced(head) && |tail| > 0 && IsSpace(tail[0])
    ensures ReplaceRuns(head + tail, IsSpace, ' ')
         == head + ([' '] + ReplaceRuns(DropWhile(tail, IsSpace), IsSpace, ' '))
  {
    ReplaceRunsAppend(head, tail, IsSpace, ' ');
    ReplaceRunsUnspaced(head);
    ReplaceRunsFromSpace(tail);
  }

  lemma ReplaceRunsUnspaced(s: string)
    requires Unspaced(s)
    ensures ReplaceRuns(s, IsSpace, ' ') == s
  {
    ReplaceRunsFixpoint(s, IsSpace, ' ');
  }

  lemma ReplaceRunsFromSpace(s: string)
    requires |s| > 0 && IsSpace(s[0])
    ensures ReplaceRuns(s, IsSpace, ' ') == [' '] + ReplaceRuns(DropWhile(s, IsSpace), IsSpace, ' ')
  {
  }

  /** The label of a body of `n` words. */
  lemma ReadTimeOfCount(content: string, n: nat)
    requires WordCount(content) == n
    ensures ReadTime(content) == NatToString(ReadMinutes(n)) + MinRead
  {
  }

  /** The empty body still reads in one minute: it splits into one empty piece. */
  lemma EmptyBodyReadTime(content: string)
    requires content == ""
    ensures ReadTime(content) == "1 min read"
  {
    assert SplitOnWhitespace(content) == [""];
    ReadTimeOfCount(content, 1);
    LabelOf(1, 1);
  }

  /** A body of `n` single-spaced words takes `ceil(n / 200)` minutes. */
  lemma WordsReadTime(ws: seq<string>)
    requires |ws| > 0
    requires forall k :: 0 <= k < |ws| ==> IsWord(ws[k], IsSpace)
    ensures ParseReadTime(ReadTime(JoinWith(ws, " "))) == Some(ReadMinutes(|ws|))
  {
    WordCountOfWords(ws);
  }

  /** A one-word body reads in one minute. */
  lemma OneWordReadTime(w: string)
    requires IsWord(w, IsSpace)
    ensures ReadTime(w) == "1 min read"
  {
    assert JoinWith([w], " ") == w;
    WordCountOfWords([w]);
    ReadTimeOfCount(w, 1);
    LabelOf(1, 1);
  }

  /** A body of 400 single-spaced words reads in two minutes. */
  lemma FourHundredWordsReadTime(ws: seq<string>)
    requires |ws| == 400
    requires forall k :: 0 <= k < |ws| ==> IsWord(ws[k], IsSpace)
    ensures ReadTime(JoinWith(ws, " ")) == "2 min read"
  {
    WordCountOfWords(ws);
    TwoMinutes(JoinWith(ws, " "));
  }

  /** A body of 400 words reads in two minutes. */
  lemma TwoMinutes(content: string)
    requires WordCount(content) == 400
    ensures ReadTime(content) == "2 min read"
  {
    ReadTimeOfCount(content, 400);
    LabelOf(400, 2);
  }

  /** The label for `words` words, which take `minutes` minutes. */
  lemma LabelOf(words: nat, minutes: nat)
    requires 0 < minutes < 10 && 200 * (minutes - 1) < words <= 200 * minutes
    ensures NatToString(ReadMinutes(words)) + MinRead == [DigitChar(minutes)] + " min read"
  {
  }
}
