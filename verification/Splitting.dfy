/** What `str.split()` does, as the only way to read a text as words with whitespace between them, and
    what the display sanitizer of `summary/model.py` leaves alone. */
module Splitting {
  import opened Text

  lemma {:induction false} WordsAppend(s: string, word: string)
    requires IsWord(word)
    ensures Words(s + " " + word) == Words(s) + [word]
    decreases |s|
  {
    var u := LStrip(s);
    LStripAppend(s, " " + word);
    assert s + " " + word == s + (" " + word);
    if u == "" {
      WordsOfOne(word);
    } else {
      var n := WordLength(u);
      WordLengthAppend(u, " " + word);
      assert LStrip(s + " " + word) == u + (" " + word);
      assert (u + (" " + word))[..n] == u[..n];
      assert (u + (" " + word))[n..] == u[n..] + " " + word;
      WordsAppend(u[n..], word);
      WordsUnfold(s);
      WordsUnfold(s + " " + word);
    }
  }

  lemma WordsUnfold(s: string)
    ensures Words(s) == if LStrip(s) == "" then []
            else [LStrip(s)[..WordLength(LStrip(s))]] + Words(LStrip(s)[WordLength(LStrip(s))..])
  {
  }

  /** Stripping the front, when something follows. */
  lemma {:induction false} LStripAppend(s: string, tail: string)
    requires tail != ""
    ensures LStrip(s) != "" ==> LStrip(s + tail) == LStrip(s) + tail
    ensures LStrip(s) == "" ==> LStrip(s + tail) == LStrip(tail)
  {
    if s == "" {
      assert s + tail == tail;
    } else {
      assert (s + tail)[1..] == s[1..] + tail;
      LStripAppend(s[1..], tail);
    }
  }

  lemma {:induction false} WordLengthAppend(s: string, tail: string)
    requires tail != "" && IsSpace(tail[0])
    ensures WordLength(s + tail) == WordLength(s)
  {
    if s == "" {
      assert s + tail == tail;
    } else {
      assert (s + tail)[1..] == s[1..] + tail;
      WordLengthAppend(s[1..], tail);
    }
  }

  lemma {:induction false} WordLengthOfWord(word: string)
    requires forall i :: 0 <= i < |word| ==> !IsSpace(word[i])
    ensures WordLength(word) == |word|
  {
    if word != "" { WordLengthOfWord(word[1..]); }
  }

  lemma WordsOfOne(word: string)
    requires IsWord(word)
    ensures Words(word) == [word] && Words(" " + word) == [word] && Words("") == []
  {
    WordLengthOfWord(word);
    assert LStrip(word) == word;
    assert (" " + word)[1..] == word;
    assert word[|word|..] == "" && word[..|word|] == word;
    WordsUnfold("");
    WordsUnfold(word);
    WordsUnfold(" " + word);
  }

  // ----- Words and the gaps between them -----

  predicate AllWords(ws: seq<string>) {
    forall i :: 0 <= i < |ws| ==> IsWord(ws[i])
  }

  predicate Blank(s: string) {
    forall i :: 0 <= i < |s| ==> IsSpace(s[i])
  }

  /** A gap before each word and one at the end: whitespace, and never nothing between two words. */
  predicate AreGaps(gaps: seq<string>) {
    && gaps != []
    && (forall i :: 0 <= i < |gaps| ==> Blank(gaps[i]))
    && (forall i :: 0 < i < |gaps| - 1 ==> gaps[i] != "")
  }

  function Woven(gaps: seq<string>, ws: seq<string>): string
    requires |gaps| == |ws| + 1
  {
    if ws == [] then gaps[0] else gaps[0] + ws[0] + Woven(gaps[1..], ws[1..])
  }

  lemma {:induction false} LStripSplits(s: string) returns (gap: string)
    ensures Blank(gap) && s == gap + LStrip(s)
  {
    if s != "" && IsSpace(s[0]) {
      var rest := LStripSplits(s[1..]);
      gap := [s[0]] + rest;
    } else {
      gap := "";
    }
  }

  lemma WovenNothing()
    ensures forall gap: string :: Woven([gap], []) == gap
  {
  }

  /** Every text is its words with whitespace between them. */
  lemma {:induction false} WordsWoven(s: string) returns (gaps: seq<string>)
    ensures |gaps| == |Words(s)| + 1 && AreGaps(gaps) && AllWords(Words(s)) && Woven(gaps, Words(s)) == s
    decreases |s|
  {
    hide Woven;
    WordsUnfold(s);
    WovenNothing();
    var gap := LStripSplits(s);
    var t := LStrip(s);
    if t == "" {
      gaps := [gap];
      assert s == gap;
    } else {
      var n := WordLength(t);
      var rest := WordsWoven(t[n..]);
      var ws := Words(t[n..]);
      if ws != [] { FirstGapNeeded(rest, ws); }
      ConsGaps(gap, rest, t[..n], ws);
      gaps := [gap] + rest;
      assert s == gap + t[..n] + t[n..];
    }
  }

  lemma FirstGapNeeded(gaps: seq<string>, ws: seq<string>)
    requires ws != [] && AllWords(ws) && |gaps| == |ws| + 1
    requires Woven(gaps, ws) != "" ==> IsSpace(Woven(gaps, ws)[0])
    ensures gaps[0] != ""
  {
    assert IsWord(ws[0]);
    assert gaps[0] + ws[0] <= Woven(gaps, ws);
  }

  lemma ConsGaps(gap: string, gaps: seq<string>, word: string, ws: seq<string>)
    requires Blank(gap) && |gaps| == |ws| + 1 && AreGaps(gaps) && (ws != [] ==> gaps[0] != "")
    ensures AreGaps([gap] + gaps) && Woven([gap] + gaps, [word] + ws) == gap + word + Woven(gaps, ws)
  {
    var all := [gap] + gaps;
    assert forall i :: 0 < i < |all| ==> all[i] == gaps[i - 1];
    assert all[1..] == gaps && ([word] + ws)[1..] == ws;
  }

  lemma {:induction false} BlankStrips(gap: string, tail: string)
    requires Blank(gap) && (tail != "" ==> !IsSpace(tail[0]))
    ensures LStrip(gap + tail) == tail
  {
    if gap == "" {
      assert gap + tail == tail;
    } else {
      assert (gap + tail)[1..] == gap[1..] + tail;
      BlankStrips(gap[1..], tail);
    }
  }

  /** And there is only one way to read it so: words woven with gaps are split into these words. */
  lemma {:induction false} WovenSplits(gaps: seq<string>, ws: seq<string>)
    requires |gaps| == |ws| + 1 && AreGaps(gaps) && AllWords(ws)
    ensures Words(Woven(gaps, ws)) == ws
  {
    var s := Woven(gaps, ws);
    WordsUnfold(s);
    if ws == [] {
      BlankStrips(gaps[0], "");
      assert gaps[0] + "" == gaps[0];
    } else {
      var word, more, rest := ws[0], ws[1..], Woven(gaps[1..], ws[1..]);
      assert IsWord(word);
      assert s == gaps[0] + (word + rest);
      BlankStrips(gaps[0], word + rest);
      GapFollows(gaps, ws);
      WordEnds(word, rest);
      assert (word + rest)[..|word|] == word && (word + rest)[|word|..] == rest;
      assert forall i :: 0 < i < |gaps[1..]| - 1 ==> gaps[1..][i] == gaps[i + 1];
      WovenSplits(gaps[1..], more);
      assert [word] + more == ws;
    }
  }

  lemma GapFollows(gaps: seq<string>, ws: seq<string>)
    requires |gaps| == |ws| + 1 && AreGaps(gaps) && ws != []
    ensures var rest := Woven(gaps[1..], ws[1..]); rest != "" ==> IsSpace(rest[0])
  {
    var rest := Woven(gaps[1..], ws[1..]);
    if rest != "" {
      assert Blank(gaps[1]);
      assert |ws| > 1 ==> gaps[1] != "";
      assert gaps[1] <= rest;
    }
  }

  lemma {:induction false} WordEnds(word: string, rest: string)
    requires IsWord(word) && (rest != "" ==> IsSpace(rest[0]))
    ensures WordLength(word + rest) == |word|
  {
    WordLengthOfWord(word);
    if rest == "" {
      assert word + rest == word;
    } else {
      WordLengthAppend(word, rest);
    }
  }

  lemma {:induction false} JoinAppend(ws: seq<string>, word: string, sep: string)
    requires ws != []
    ensures Join(ws + [word], sep) == Join(ws, sep) + sep + word
  {
    var all := ws + [word];
    if |ws| > 1 {
      assert all[1..] == ws[1..] + [word];
      JoinAppend(ws[1..], word, sep);
    } else {
      assert all[1..] == [word];
    }
  }

  /** Words joined by blanks are split into the same words. */
  lemma {:induction false} WordsOfJoin(ws: seq<string>)
    requires AllWords(ws)
    ensures Words(Join(ws, " ")) == ws
  {
    if ws == [] {
      WordsUnfold("");
    } else {
      var n := |ws| - 1;
      var init := ws[..n];
      assert ws == init + [ws[n]];
      WordsOfJoin(init);
      if init == [] {
        WordsOfOne(ws[n]);
      } else {
        JoinAppend(init, ws[n], " ");
        WordsAppend(Join(init, " "), ws[n]);
      }
    }
  }

  // ----- Text that is shown as it is -----

  /** Printable characters other than blanks. */
  predicate IsPlainWord(w: string) {
    w != "" && forall i :: 0 <= i < |w| ==> '!' <= w[i] <= '~'
  }

  predicate IsPlain(s: string) {
    forall i :: 0 <= i < |s| ==> ' ' <= s[i] <= '~'
  }

  lemma {:induction false} PlainPasses(s: string)
    requires IsPlain(s)
    ensures StripAnsi(s) == s && DropControls(s) == s
  {
    if s != "" {
      PlainPasses(s[1..]);
      assert s == [s[0]] + s[1..];
    }
  }

  lemma {:induction false} JoinPlain(ws: seq<string>)
    requires forall i :: 0 <= i < |ws| ==> IsPlainWord(ws[i])
    ensures IsPlain(Join(ws, " "))
  {
    if |ws| > 1 { JoinPlain(ws[1..]); }
  }

  /** A short line of plain words is shown unchanged. */
  lemma PlainIsShown(ws: seq<string>)
    requires (forall i :: 0 <= i < |ws| ==> IsPlainWord(ws[i])) && |Join(ws, " ")| <= DISPLAY_TEXT_LIMIT
    ensures SanitizeText(Join(ws, " ")) == Join(ws, " ")
  {
    JoinPlain(ws);
    PlainPasses(Join(ws, " "));
    WordsOfJoin(ws);
  }

  /** A text that starts with a plain character shows something. */
  lemma PlainStartShown(s: string)
    requires s != "" && IsPlainWord(s[..1])
    ensures SanitizeText(s) != ""
  {
    assert s[0] == s[..1][0];
    var t := DropControls(StripAnsi(s));
    assert t != "" && t[0] == s[0];
    WordsUnfold(t);
    assert Words(t) != [];
    JoinFirst(Words(t), " ");
  }
}
