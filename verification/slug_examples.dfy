/** Two of the ten titles of test-seo-slug.js (lines 25-26), and two
    further titles (one without letters or digits, one of two plain
    words), each slug
    derived from the general `SlugOfPieces` lemma: the title is cut into
    raw words and separators, each piece is filtered on its own, and the
    slug is the filtered words joined by hyphens. The literal strings are
    passed in as parameters so that the verifier does not try to evaluate
    the whole pipeline on them at once. */
module SlugExamples {
  import opened Chars
  import opened Runs
  import opened Tokens
  import opened Slug

  /** A piece already made of lowercase letters, digits and whitespace
      passes steps 1 and 2 unchanged. */
  lemma FilteredKeeps(w: string)
    requires forall i :: 0 <= i < |w| ==> IsLowerAlnum(w[i]) || IsSpace(w[i])
    ensures Filtered(w) == w
  {
    assert Lower(w) == w;
    FilterAll(w, IsKept);
  }

  /** A capitalised word loses only the case of its first letter. */
  lemma FilteredCapital(c: char, w: string)
    requires IsUpper(c)
    requires forall i :: 0 <= i < |w| ==> IsLowerAlnum(w[i])
    ensures Filtered([c] + w) == [LowerChar(c)] + w
  {
    FilteredAppend([c], w);
    FilteredKeeps(w);
    assert Lower([c]) == [LowerChar(c)];
  }

  /** A piece with no letter, digit, whitespace or hyphen vanishes. */
  lemma FilteredDrops(w: string)
    requires forall i :: 0 <= i < |w| ==> !IsKept(w[i]) && !IsUpper(w[i])
    ensures Filtered(w) == ""
  {
    assert Lower(w) == w;
    FilterNone(w, IsKept);
  }

  // "What's New in React 18?" becomes "whats-new-in-react-18".

  lemma WhatsNewWordPieces(raw: seq<string>, ws: seq<string>)
    requires raw == ["What's", "New", "in", "React", "18"]
    requires ws == ["whats", "new", "in", "react", "18"]
    ensures forall k :: 0 <= k < |ws| ==> Filtered(raw[k]) == ws[k]
  {
    forall k | 0 <= k < |ws| ensures Filtered(raw[k]) == ws[k] {
      if k == 0 {
        WhatsPiece(raw[0]);
      } else if k == 1 {
        NewPiece(raw[1]);
      } else if k == 3 {
        ReactPiece(raw[3]);
      } else {
        FilteredKeeps(raw[k]);
      }
    }
  }

  lemma WhatsPiece(w: string)
    requires w == "What's"
    ensures Filtered(w) == "whats"
  {
    FilteredCapital('W', "hat");
    FilteredDrops("'");
    FilteredKeeps("s");
    assert w == (['W'] + "hat") + ("'" + "s");
    FilteredAppend(['W'] + "hat", "'" + "s");
    FilteredAppend("'", "s");
  }

  lemma WhatsNewSepPieces(rawSeps: seq<string>, seps: seq<string>)
    requires rawSeps == ["", " ", " ", " ", " ", "?"]
    requires seps == ["", " ", " ", " ", " ", ""]
    ensures forall k :: 0 <= k < |seps| ==> Filtered(rawSeps[k]) == seps[k]
  {
    FilteredKeeps(rawSeps[0]);
    FilteredKeeps(rawSeps[1]);
  }

  lemma WhatsNewTitle(title: string, raw: seq<string>, rawSeps: seq<string>)
    requires title == "What's New in React 18?"
    requires raw == ["What's", "New", "in", "React", "18"]
    requires rawSeps == ["", " ", " ", " ", " ", "?"]
    ensures Interleave(raw, rawSeps) == title
  {
    WhatsNewTitleTail(raw[2..], rawSeps[2..]);
    assert Interleave(raw[1..], rawSeps[1..]) == " New in React 18?";
  }

  lemma WhatsNewTitleTail(raw: seq<string>, rawSeps: seq<string>)
    requires raw == ["in", "React", "18"]
    requires rawSeps == [" ", " ", " ", "?"]
    ensures Interleave(raw, rawSeps) == " in React 18?"
  {
    assert Interleave(raw[2..], rawSeps[2..]) == " 18?";
    assert Interleave(raw[1..], rawSeps[1..]) == " React 18?";
  }

  lemma WhatsNewSplit(ws: seq<string>, seps: seq<string>)
    requires ws == ["whats", "new", "in", "react", "18"]
    requires seps == ["", " ", " ", " ", " ", ""]
    ensures WellSplit(ws, seps, IsSep)
  {
    assert IsWord(ws[0], IsSep) && IsWord(ws[1], IsSep) && IsWord(ws[2], IsSep);
    assert IsWord(ws[3], IsSep) && IsWord(ws[4], IsSep);
  }

  lemma WhatsNewJoin(ws: seq<string>)
    requires ws == ["whats", "new", "in", "react", "18"]
    ensures JoinWith(ws, "-") == "whats-new-in-react-18"
  {
    WhatsNewJoinTail(ws[2..]);
    assert JoinWith(ws[1..], "-") == "new-in-react-18";
  }

  lemma WhatsNewJoinTail(ws: seq<string>)
    requires ws == ["in", "react", "18"]
    ensures JoinWith(ws, "-") == "in-react-18"
  {
    assert JoinWith(ws[2..], "-") == "18";
    assert JoinWith(ws[1..], "-") == "react-18";
  }

  lemma WhatsNewSlug(title: string)
    requires title == "What's New in React 18?"
    ensures GenerateSlug(title) == "whats-new-in-react-18"
  {
    var raw := ["What's", "New", "in", "React", "18"];
    var rawSeps := ["", " ", " ", " ", " ", "?"];
    var ws := ["whats", "new", "in", "react", "18"];
    var seps := ["", " ", " ", " ", " ", ""];
    WhatsNewWordPieces(raw, ws);
    WhatsNewSepPieces(rawSeps, seps);
    WhatsNewTitle(title, raw, rawSeps);
    WhatsNewSplit(ws, seps);
    WhatsNewJoin(ws);
    SlugOfPieces(title, raw, rawSeps, ws, seps);
  }

  // "10 Tips & Tricks for Better Performance" becomes
  // "10-tips-tricks-for-better-performance".

  lemma TipsWordPiecesHead(raw: seq<string>, ws: seq<string>)
    requires raw == ["10", "Tips", "Tricks"]
    requires ws == ["10", "tips", "tricks"]
    ensures forall k :: 0 <= k < |ws| ==> Filtered(raw[k]) == ws[k]
  {
    forall k | 0 <= k < |ws| ensures Filtered(raw[k]) == ws[k] {
      if k == 0 {
        FilteredKeeps(raw[0]);
      } else if k == 1 {
        TipsPiece(raw[1]);
      } else {
        TricksPiece(raw[2]);
      }
    }
  }

  lemma TipsWordPiecesTail(raw: seq<string>, ws: seq<string>)
    requires raw == ["for", "Better", "Performance"]
    requires ws == ["for", "better", "performance"]
    ensures forall k :: 0 <= k < |ws| ==> Filtered(raw[k]) == ws[k]
  {
    forall k | 0 <= k < |ws| ensures Filtered(raw[k]) == ws[k] {
      if k == 0 {
        FilteredKeeps(raw[0]);
      } else if k == 1 {
        BetterPiece(raw[1]);
      } else {
        PerformancePiece(raw[2]);
      }
    }
  }

  // One lemma per capitalised word, so that each word's literal meets the
  // solver apart from the other words'.

  lemma NewPiece(w: string)
    requires w == "New"
    ensures Filtered(w) == "new"
  {
    FilteredCapital('N', "ew");
    assert w == ['N'] + "ew";
  }

  lemma ReactPiece(w: string)
    requires w == "React"
    ensures Filtered(w) == "react"
  {
    FilteredCapital('R', "eact");
    assert w == ['R'] + "eact";
  }

  lemma TipsPiece(w: string)
    requires w == "Tips"
    ensures Filtered(w) == "tips"
  {
    FilteredCapital('T', "ips");
    assert w == ['T'] + "ips";
  }

  lemma TricksPiece(w: string)
    requires w == "Tricks"
    ensures Filtered(w) == "tricks"
  {
    FilteredCapital('T', "ricks");
    assert w == ['T'] + "ricks";
  }

  lemma TestPiece(w: string)
    requires w == "Test"
    ensures Filtered(w) == "test"
  {
    FilteredCapital('T', "est");
    assert w == ['T'] + "est";
  }

  lemma PostPiece(w: string)
    requires w == "Post"
    ensures Filtered(w) == "post"
  {
    FilteredCapital('P', "ost");
    assert w == ['P'] + "ost";
  }

  lemma BetterPiece(w: string)
    requires w == "Better"
    ensures Filtered(w) == "better"
  {
    FilteredCapital('B', "etter");
    assert w == ['B'] + "etter";
  }

  lemma PerformancePiece(w: string)
    requires w == "Performance"
    ensures Filtered(w) == "performance"
  {
    FilteredCapital('P', "erformance");
    assert w == ['P'] + "erformance";
  }

  lemma TipsSepPieces(rawSeps: seq<string>, seps: seq<string>)
    requires rawSeps == ["", " ", " & ", " ", " ", " ", ""]
    requires seps == ["", " ", "  ", " ", " ", " ", ""]
    ensures forall k :: 0 <= k < |seps| ==> Filtered(rawSeps[k]) == seps[k]
  {
    FilteredKeeps(rawSeps[0]);
    FilteredKeeps(rawSeps[1]);
    assert Lower(rawSeps[2]) == rawSeps[2];
  }

  lemma TipsTitleTail(raw: seq<string>, rawSeps: seq<string>)
    requires raw == ["Better", "Performance"]
    requires rawSeps == [" ", " ", ""]
    ensures Interleave(raw, rawSeps) == " Better Performance"
  {
    assert Interleave(raw[1..], rawSeps[1..]) == " Performance";
  }

  lemma TipsTitleMiddle(raw: seq<string>, rawSeps: seq<string>)
    requires raw == ["Tricks", "for", "Better", "Performance"]
    requires rawSeps == [" & ", " ", " ", " ", ""]
    ensures Interleave(raw, rawSeps) == " & Tricks for Better Performance"
  {
    TipsTitleTail(raw[2..], rawSeps[2..]);
    TipsTitleFor(raw[1..], rawSeps[1..]);
    assert Interleave(raw, rawSeps) == " & " + "Tricks" + Interleave(raw[1..], rawSeps[1..]);
    TipsTitleMiddleText();
  }

  // A separate lemma, so that the long literals meet the solver one at a time.
  lemma TipsTitleMiddleText()
    ensures " & " + "Tricks" + " for Better Performance" == " & Tricks for Better Performance"
  {
  }

  lemma TipsTitleFor(raw: seq<string>, rawSeps: seq<string>)
    requires |raw| == 3 && raw[0] == "for"
    requires |rawSeps| == 4 && rawSeps[0] == " "
    requires Interleave(raw[1..], rawSeps[1..]) == " Better Performance"
    ensures Interleave(raw, rawSeps) == " for Better Performance"
  {
  }

  lemma TipsTitleHead(raw: seq<string>, rawSeps: seq<string>)
    requires raw == ["Tips", "Tricks", "for", "Better", "Performance"]
    requires rawSeps == [" ", " & ", " ", " ", " ", ""]
    ensures Interleave(raw, rawSeps) == " Tips & Tricks for Better Performance"
  {
    TipsTitleMiddle(raw[1..], rawSeps[1..]);
    assert Interleave(raw, rawSeps) == " " + "Tips" + Interleave(raw[1..], rawSeps[1..]);
    TipsTitleHeadText();
  }

  // A separate lemma, so that the long literals meet the solver one at a time.
  lemma TipsTitleHeadText()
    ensures " " + "Tips" + " & Tricks for Better Performance" == " Tips & Tricks for Better Performance"
  {
  }

  lemma TipsTitle(title: string, raw: seq<string>, rawSeps: seq<string>)
    requires title == "10 Tips & Tricks for Better Performance"
    requires raw == ["10", "Tips", "Tricks", "for", "Better", "Performance"]
    requires rawSeps == ["", " ", " & ", " ", " ", " ", ""]
    ensures Interleave(raw, rawSeps) == title
  {
    TipsTitleHead(raw[1..], rawSeps[1..]);
    assert Interleave(raw, rawSeps) == "" + "10" + Interleave(raw[1..], rawSeps[1..]);
    TipsTitleText();
  }

  // A separate lemma, so that the long literals meet the solver one at a time.
  lemma TipsTitleText()
    ensures "" + "10" + " Tips & Tricks for Better Performance" == "10 Tips & Tricks for Better Performance"
  {
  }

  lemma TipsSplit(ws: seq<string>, seps: seq<string>)
    requires ws == ["10", "tips", "tricks", "for", "better", "performance"]
    requires seps == ["", " ", "  ", " ", " ", " ", ""]
    ensures WellSplit(ws, seps, IsSep)
  {
    TipsWordsHead(ws[..3]);
    TipsWordsTail(ws[3..]);
    assert forall k :: 0 <= k < |ws| ==> IsWord(ws[k], IsSep) by {
      forall k | 0 <= k < |ws| ensures IsWord(ws[k], IsSep) {
        if k < 3 { assert ws[k] == ws[..3][k]; } else { assert ws[k] == ws[3..][k - 3]; }
      }
    }
    assert IsSeparator(seps[2], IsSep);
  }

  lemma TipsWordsHead(ws: seq<string>)
    requires ws == ["10", "tips", "tricks"]
    ensures forall k :: 0 <= k < |ws| ==> IsWord(ws[k], IsSep)
  {
    assert IsWord(ws[0], IsSep) && IsWord(ws[1], IsSep) && IsWord(ws[2], IsSep);
  }

  lemma TipsWordsTail(ws: seq<string>)
    requires ws == ["for", "better", "performance"]
    ensures forall k :: 0 <= k < |ws| ==> IsWord(ws[k], IsSep)
  {
    assert IsWord(ws[0], IsSep) && IsWord(ws[1], IsSep) && IsWord(ws[2], IsSep);
  }

  lemma TipsJoinTail(ws: seq<string>)
    requires ws == ["better", "performance"]
    ensures JoinWith(ws, "-") == "better-performance"
  {
    assert JoinWith(ws[1..], "-") == "performance";
  }

  lemma TipsJoinMiddle(ws: seq<string>)
    requires ws == ["tricks", "for", "better", "performance"]
    ensures JoinWith(ws, "-") == "tricks-for-better-performance"
  {
    TipsJoinTail(ws[2..]);
    assert JoinWith(ws[1..], "-") == "for-better-performance";
  }

  lemma TipsJoinHead(ws: seq<string>)
    requires ws == ["tips", "tricks", "for", "better", "performance"]
    ensures JoinWith(ws, "-") == "tips-tricks-for-better-performance"
  {
    TipsJoinMiddle(ws[1..]);
  }

  lemma TipsJoin(ws: seq<string>)
    requires ws == ["10", "tips", "tricks", "for", "better", "performance"]
    ensures JoinWith(ws, "-") == "10-tips-tricks-for-better-performance"
  {
    TipsJoinHead(ws[1..]);
    assert JoinWith(ws, "-") == "10" + "-" + JoinWith(ws[1..], "-");
    TipsJoinText();
  }

  // A separate lemma, so that the long literals meet the solver one at a time.
  lemma TipsJoinText()
    ensures "10" + "-" + "tips-tricks-for-better-performance" == "10-tips-tricks-for-better-performance"
  {
  }

  lemma TipsSlug(title: string)
    requires title == "10 Tips & Tricks for Better Performance"
    ensures GenerateSlug(title) == "10-tips-tricks-for-better-performance"
  {
    var raw := ["10", "Tips", "Tricks", "for", "Better", "Performance"];
    var rawSeps := ["", " ", " & ", " ", " ", " ", ""];
    var ws := ["10", "tips", "tricks", "for", "better", "performance"];
    var seps := ["", " ", "  ", " ", " ", " ", ""];
    TipsWordPiecesHead(raw[..3], ws[..3]);
    TipsWordPiecesTail(raw[3..], ws[3..]);
    assert forall k :: 0 <= k < |ws| ==> Filtered(raw[k]) == ws[k] by {
      forall k | 0 <= k < |ws| ensures Filtered(raw[k]) == ws[k] {
        if k < 3 { assert raw[k] == raw[..3][k]; } else { assert raw[k] == raw[3..][k - 3]; }
      }
    }
    TipsSepPieces(rawSeps, seps);
    TipsTitle(title, raw, rawSeps);
    TipsSplit(ws, seps);
    TipsJoin(ws);
    SlugOfPieces(title, raw, rawSeps, ws, seps);
  }

  // "!!! ???" has no letters or digits, so its slug is empty.

  lemma PunctuationOnlySlug(title: string)
    requires title == "!!! ???"
    ensures GenerateSlug(title) == ""
  {
    assert title == "!!!" + (" " + "???");
    FilteredDrops("!!!");
    FilteredDrops("???");
    FilteredKeeps(" ");
    FilteredAppend("!!!", " " + "???");
    FilteredAppend(" ", "???");
    assert IsSeparator(" ", IsSep);
    SlugOfPieces(title, [], [title], [], [" "]);
  }

  // "Test Post" becomes "test-post".

  lemma TestPostPieces(raw: seq<string>, ws: seq<string>)
    requires raw == ["Test", "Post"]
    requires ws == ["test", "post"]
    ensures forall k :: 0 <= k < |ws| ==> Filtered(raw[k]) == ws[k]
  {
    TestPiece(raw[0]);
    PostPiece(raw[1]);
  }

  lemma TestPostSepPieces(rawSeps: seq<string>, seps: seq<string>)
    requires rawSeps == ["", " ", ""] && seps == rawSeps
    ensures forall k :: 0 <= k < |seps| ==> Filtered(rawSeps[k]) == seps[k]
  {
    FilteredKeeps(" ");
    FilteredKeeps("");
  }

  lemma TestPostWords(ws: seq<string>, seps: seq<string>)
    requires ws == ["test", "post"]
    requires seps == ["", " ", ""]
    ensures WellSplit(ws, seps, IsSep)
    ensures JoinWith(ws, "-") == "test-post"
  {
    assert IsWord(ws[0], IsSep) && IsWord(ws[1], IsSep);
    assert JoinWith(ws[1..], "-") == "post";
  }

  lemma TestPostSlug(title: string)
    requires title == "Test Post"
    ensures GenerateSlug(title) == "test-post"
  {
    var raw := ["Test", "Post"];
    var rawSeps := ["", " ", ""];
    var ws := ["test", "post"];
    var seps := ["", " ", ""];
    TestPostPieces(raw, ws);
    TestPostSepPieces(rawSeps, seps);
    assert Interleave(raw[1..], rawSeps[1..]) == " Post";
    TestPostWords(ws, seps);
    SlugOfPieces(title, raw, rawSeps, ws, seps);
  }
}
