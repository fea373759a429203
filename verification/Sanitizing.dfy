/** What the display sanitizer leaves: one line of printable text with single blanks, at most 240
    characters long, that sanitizing once more does not change. */
module Sanitizing {
  import opened Text
  import opened Splitting

  /** No blank at either end, none but spaces in between, and no two of them together. */
  predicate SingleSpaced(s: string) {
    && (s != "" ==> !IsSpace(s[0]) && !IsSpace(s[|s| - 1]))
    && (forall i :: 0 <= i < |s| && IsSpace(s[i]) ==> s[i] == ' ')
    && (forall i :: 0 <= i < |s| - 1 && IsSpace(s[i]) ==> !IsSpace(s[i + 1]))
  }

  predicate Printable(s: string) {
    forall i :: 0 <= i < |s| ==> s[i] != ESC && !IsControl(s[i])
  }

  lemma {:induction false} PrintablePasses(s: string)
    requires Printable(s)
    ensures StripAnsi(s) == s && DropControls(s) == s
  {
    if s != "" {
      PrintablePasses(s[1..]);
      assert s == [s[0]] + s[1..];
    }
  }

  lemma {:induction false} JoinSpaced(ws: seq<string>)
    requires forall i :: 0 <= i < |ws| ==> IsWord(ws[i])
    ensures SingleSpaced(Join(ws, " "))
  {
    if |ws| > 1 {
      JoinSpaced(ws[1..]);
      JoinFirst(ws[1..], " ");
      assert IsWord(ws[1..][0]);
      var rest := Join(ws[1..], " ");
      var s := Join(ws, " ");
      assert s == ws[0] + " " + rest && rest != "";
      forall i | 0 <= i < |s| && IsSpace(s[i]) ensures s[i] == ' ' {
        if i > |ws[0]| { assert s[i] == rest[i - |ws[0]| - 1]; }
      }
      forall i | 0 <= i < |s| - 1 && IsSpace(s[i]) ensures !IsSpace(s[i + 1]) {
        if i > |ws[0]| { assert s[i] == rest[i - |ws[0]| - 1] && s[i + 1] == rest[i - |ws[0]|]; }
      }
    }
  }

  lemma {:induction false} JoinPrintable(ws: seq<string>)
    requires forall i :: 0 <= i < |ws| ==> Printable(ws[i])
    ensures Printable(Join(ws, " "))
  {
    if |ws| > 1 { JoinPrintable(ws[1..]); }
  }

  lemma {:induction false} WordsPrintable(s: string)
    requires Printable(s)
    ensures forall i :: 0 <= i < |Words(s)| ==> Printable(Words(s)[i])
    decreases |s|
  {
    var gap := LStripSplits(s);
    var t := LStrip(s);
    if t != "" {
      var n := WordLength(t);
      assert forall i :: 0 <= i < |t| ==> t[i] == s[|gap| + i];
      WordsPrintable(t[n..]);
      assert Words(s) == [t[..n]] + Words(t[n..]);
    }
  }

  /** The part of a single-spaced line after its first word and the space behind it. */
  lemma SpacedRest(s: string, n: nat)
    requires SingleSpaced(s) && n + 1 < |s| && IsSpace(s[n])
    ensures s == s[..n] + " " + s[n + 1..] && SingleSpaced(s[n + 1..])
    ensures LStrip(s[n..]) == s[n + 1..] && LStrip(s[n + 1..]) == s[n + 1..]
  {
    var rest := s[n + 1..];
    assert forall i :: 0 <= i < |rest| ==> rest[i] == s[n + 1 + i];
    assert s[n..][1..] == rest;
  }

  /** A single-spaced line is its words joined by single spaces. */
  lemma {:induction false} SpacedIsJoined(s: string)
    requires SingleSpaced(s)
    ensures Join(Words(s), " ") == s
  {
    hide SingleSpaced;
    WordsUnfold(s);
    if s == "" {
    } else {
      SpacedStarts(s);
      var n := WordLength(s);
      if n == |s| {
        WordsUnfold("");
        assert s[..n] == s && s[n..] == "";
      } else {
        SpacedRest(s, n);
        SpacedIsJoined(s[n + 1..]);
        WordsUnfold(s[n..]);
        WordsUnfold(s[n + 1..]);
        assert Words(s) == [s[..n]] + Words(s[n + 1..]) && Words(s)[1..] == Words(s[n + 1..]);
      }
    }
  }

  lemma SpacedStarts(s: string)
    requires SingleSpaced(s) && s != ""
    ensures LStrip(s) == s && 0 < WordLength(s) && (WordLength(s) < |s| ==> WordLength(s) + 1 < |s|)
  {
  }

  lemma Clipped(s: string, n: nat)
    requires SingleSpaced(s) && Printable(s) && n <= |s|
    ensures SingleSpaced(RStrip(s[..n]) + [ELLIPSIS]) && Printable(RStrip(s[..n]) + [ELLIPSIS])
  {
    var kept := RStrip(s[..n]);
    assert forall i :: 0 <= i < |kept| ==> kept[i] == s[i];
  }

  /** What is shown is one printable line of at most 240 characters with single spaces. */
  lemma SanitizedShape(s: string)
    ensures SingleSpaced(SanitizeText(s)) && Printable(SanitizeText(s)) && |SanitizeText(s)| <= 240
  {
    var t := DropControls(StripAnsi(s));
    DropsControls(StripAnsi(s));
    WordsPrintable(t);
    JoinPrintable(Words(t));
    JoinSpaced(Words(t));
    var line := Join(Words(t), " ");
    if |line| > DISPLAY_TEXT_LIMIT { Clipped(line, DISPLAY_TEXT_LIMIT - 1); }
  }

  lemma DropsControls(s: string)
    requires ESC !in s
    ensures Printable(DropControls(s))
  {
    assert IsControl(ESC);
  }

  /** Such a line is shown unchanged. */
  lemma CleanIsShown(s: string)
    requires SingleSpaced(s) && Printable(s) && |s| <= 240
    ensures SanitizeText(s) == s
  {
    PrintablePasses(s);
    SpacedIsJoined(s);
  }

  /** Sanitizing twice is sanitizing once. */
  lemma SanitizedTwice(s: string)
    ensures SanitizeText(SanitizeText(s)) == SanitizeText(s)
  {
    hide SanitizeText;
    SanitizedShape(s);
    CleanIsShown(SanitizeText(s));
  }
}
