/** What a rendered record shows (`extract/normalize.py`): which texts and results become a line, what
    stands in front of them, and what is left of a long text or a run of blank lines. */
module RenderedText {
  import opened Text
  import opened Normalize

  // ----- Blank lines -----

  function Newlines(k: nat): string {
    seq(k, i => '\n')
  }

  lemma {:induction false} RunOf(k: nat, rest: string)
    requires rest == "" || rest[0] != '\n'
    ensures NewlineRun(Newlines(k) + rest) == k
  {
    if k > 0 {
      assert (Newlines(k) + rest)[1..] == Newlines(k - 1) + rest;
      RunOf(k - 1, rest);
    } else {
      assert Newlines(0) + rest == rest;
    }
  }

  /** A run of newlines between other characters: three or more become two, fewer stay. */
  lemma RunCollapses(k: nat, rest: string)
    requires rest == "" || rest[0] != '\n'
    ensures CollapseBlankLines(Newlines(k) + rest) == Newlines(if k >= 3 then 2 else k) + CollapseBlankLines(rest)
  {
    var s := Newlines(k) + rest;
    RunOf(k, rest);
    if k == 0 {
      assert s == rest && Newlines(0) + CollapseBlankLines(rest) == CollapseBlankLines(rest);
    } else {
      assert s[..k] == Newlines(k) && s[k..] == rest;
      assert "\n\n" == Newlines(2);
    }
  }

  lemma OtherKept(c: char, rest: string)
    requires c != '\n'
    ensures CollapseBlankLines([c] + rest) == [c] + CollapseBlankLines(rest)
  {
    assert ([c] + rest)[1..] == rest;
  }

  /** What precedes a run of newlines has no say in it. */
  lemma {:induction false} CollapseAppend(a: string, b: string)
    requires a == "" || a[|a| - 1] != '\n'
    ensures CollapseBlankLines(a + b) == CollapseBlankLines(a) + CollapseBlankLines(b)
    decreases |a|
  {
    hide CollapseBlankLines;
    if a == "" {
      assert a + b == b;
      NothingCollapses();
    } else if a[0] != '\n' {
      var rest := a[1..];
      assert a == [a[0]] + rest && a + b == [a[0]] + (rest + b);
      OtherKept(a[0], rest);
      OtherKept(a[0], rest + b);
      CollapseAppend(rest, b);
    } else {
      var n := NewlineRun(a);
      RunEnds(a);
      RunStops(a, n, b);
      var rest := a[n..];
      RunCollapses(n, rest);
      RunCollapses(n, rest + b);
      CollapseAppend(rest, b);
    }
  }

  lemma NothingCollapses()
    ensures CollapseBlankLines("") == ""
  {
  }

  lemma RunStops(a: string, n: nat, b: string)
    requires a != "" && a[0] == '\n' && a[|a| - 1] != '\n' && n <= |a| && a[..n] == Newlines(n)
    requires n < |a| ==> a[n] != '\n'
    ensures 0 < n < |a| && a == Newlines(n) + a[n..] && a + b == Newlines(n) + (a[n..] + b)
    ensures (a[n..] + b)[0] != '\n' && a[n..][0] != '\n' && a[n..][|a| - n - 1] != '\n'
  {
    assert n > 0 ==> a[..n][n - 1] == a[n - 1];
  }

  /** Wherever a run of newlines stands, it alone decides what becomes of it. */
  lemma CollapsesExactly(a: string, k: nat, b: string)
    requires (a == "" || a[|a| - 1] != '\n') && (b == "" || b[0] != '\n')
    ensures CollapseBlankLines(a + (Newlines(k) + b)) ==
            CollapseBlankLines(a) + (Newlines(if k >= 3 then 2 else k) + CollapseBlankLines(b))
  {
    CollapseAppend(a, Newlines(k) + b);
    RunCollapses(k, b);
  }

  lemma {:induction false} RunEnds(s: string)
    ensures s[..NewlineRun(s)] == Newlines(NewlineRun(s))
    ensures NewlineRun(s) < |s| ==> s[NewlineRun(s)] != '\n'
  {
    if s != "" && s[0] == '\n' {
      RunEnds(s[1..]);
      var n := NewlineRun(s[1..]);
      assert s[..n + 1] == [s[0]] + s[1..][..n];
    }
  }

  // ----- Long texts -----

  /** What stands behind a text of which `n` characters are left out. */
  function Note(n: nat): string {
    "\n" + [ELLIPSIS] + "[+" + Decimal(n) + " chars]"
  }

  /** A text within the limit is shown whole; of a longer one, its beginning and the number of
      characters left out. */
  lemma ClipsExactly(text: string, limit: nat)
    ensures var t := CollapseBlankLines(text);
            Clip(text, limit) == if |t| <= limit then t else t[..limit] + Note(|t| - limit)
  {
    hide CollapseBlankLines, Decimal;
    var t := CollapseBlankLines(text);
    if |t| > limit {
      var a, d := t[..limit], Decimal(|t| - limit);
      assert a + "\n" + [ELLIPSIS] + "[+" + d + " chars]" == a + ("\n" + [ELLIPSIS] + "[+" + d + " chars]");
    }
  }

  // ----- Lines -----

  /** The texts that say something, stripped, in order. */
  function Speaking(texts: seq<string>): seq<string> {
    if texts == [] then []
    else (if Strip(texts[0]) == "" then [] else [Strip(texts[0])]) + Speaking(texts[1..])
  }

  function SpeakingResults(results: seq<ToolText>): seq<ToolText> {
    if results == [] then []
    else
      var content := Strip(results[0].content);
      (if content == "" then [] else [results[0].(content := content)]) + SpeakingResults(results[1..])
  }

  /** One line per text, behind the prefix and the speaker's tag. */
  function SpokenLines(prefix: string, tag: string, spoken: seq<string>): seq<string> {
    seq(|spoken|, i requires 0 <= i < |spoken| => prefix + tag + Clip(spoken[i], 3000))
  }

  function ReturnedLines(prefix: string, returned: seq<ToolText>): seq<string> {
    seq(|returned|, i requires 0 <= i < |returned| =>
      prefix + (if returned[i].failed then "  result[error]> " else "  result> ") + Clip(returned[i].content, 400))
  }

  lemma {:induction false} SpeakingSnoc(texts: seq<string>, text: string)
    ensures Speaking(texts + [text]) == Speaking(texts) + if Strip(text) == "" then [] else [Strip(text)]
  {
    hide Strip;
    if texts == [] {
      assert texts + [text] == [text] && [text][1..] == [];
    } else {
      assert (texts + [text])[1..] == texts[1..] + [text];
      SpeakingSnoc(texts[1..], text);
    }
  }

  lemma {:induction false} ReturnedSnoc(results: seq<ToolText>, r: ToolText)
    ensures SpeakingResults(results + [r]) ==
            SpeakingResults(results) + if Strip(r.content) == "" then [] else [r.(content := Strip(r.content))]
  {
    hide Strip;
    if results == [] {
      assert results + [r] == [r] && [r][1..] == [];
    } else {
      assert (results + [r])[1..] == results[1..] + [r];
      ReturnedSnoc(results[1..], r);
    }
  }

  lemma {:induction false} TextLinesAre(prefix: string, tag: string, texts: seq<string>)
    ensures TextLines(prefix, tag, texts) == SpokenLines(prefix, tag, Speaking(texts))
  {
    hide Strip, Clip;
    if texts != [] {
      var n := |texts| - 1;
      TextLinesAre(prefix, tag, texts[..n]);
      SpeakingSnoc(texts[..n], texts[n]);
      assert texts == texts[..n] + [texts[n]];
    }
  }

  lemma {:induction false} ResultLinesAre(prefix: string, results: seq<ToolText>)
    ensures ResultLines(prefix, results) == ReturnedLines(prefix, SpeakingResults(results))
  {
    hide Strip, Clip;
    if results != [] {
      var n := |results| - 1;
      ResultLinesAre(prefix, results[..n]);
      ReturnedSnoc(results[..n], results[n]);
      assert results == results[..n] + [results[n]];
      MarksSpelled(prefix, results[n].failed);
    }
  }

  lemma MarksSpelled(prefix: string, failed: bool)
    ensures prefix + (if failed then ERROR_MARK else RESULT_MARK) + " "
            == prefix + if failed then "  result[error]> " else "  result> "
  {
    assert ERROR_MARK + " " == "  result[error]> " && RESULT_MARK + " " == "  result> ";
    assert prefix + ERROR_MARK + " " == prefix + (ERROR_MARK + " ");
    assert prefix + RESULT_MARK + " " == prefix + (RESULT_MARK + " ");
  }

  /** The clock time of a readable timestamp, in brackets. */
  function Stamp(timestamp: Option<string>): string {
    match timestamp
    case None => ""
    case Some(text) => if |text| < 19 then "" else "[" + text[11..19] + "] "
  }

  function CallsShown(prefix: string, calls: seq<string>): seq<string> {
    seq(|calls|, i requires 0 <= i < |calls| => prefix + "  tool> " + calls[i])
  }

  lemma {:induction false} CallLinesAre(prefix: string, calls: seq<string>)
    ensures CallLines(prefix, calls) == CallsShown(prefix, calls)
  {
    if calls != [] {
      var n := |calls| - 1;
      CallLinesAre(prefix, calls[..n]);
      assert TOOL_MARK + " " == "  tool> ";
      assert prefix + TOOL_MARK + " " + calls[n] == prefix + "  tool> " + calls[n];
    }
  }

  /** The lines of every kind of record: first the texts, then the results or the calls. */
  lemma RecordLinesAre(r: Record)
    ensures r.UserRecord? ==>
              RenderRecord(r) == SpokenLines(Stamp(r.timestamp), if r.human then "HUMAN: " else "INJECTED: ",
                                             Speaking(r.texts))
                                 + ReturnedLines(Stamp(r.timestamp), SpeakingResults(r.results))
    ensures r.AssistantRecord? ==>
              RenderRecord(r) == SpokenLines(Stamp(r.timestamp), "AGENT: ", Speaking(r.texts))
                                 + CallsShown(Stamp(r.timestamp), r.calls)
    ensures r.SystemRecord? ==>
              RenderRecord(r) == [Stamp(r.timestamp) + "SYSTEM(" + r.kind + ")"
                                  + if Strip(r.text) == "" then "" else ": " + Clip(Strip(r.text), 3000)]
    ensures r.OtherRecord? ==> RenderRecord(r) == []
  {
    hide Strip, Clip;
    match r
    case UserRecord(ts, texts, results, human) =>
      TextLinesAre(Stamp(ts), if human then "HUMAN: " else "INJECTED: ", texts);
      ResultLinesAre(Stamp(ts), results);
    case AssistantRecord(ts, texts, calls) =>
      TextLinesAre(Stamp(ts), "AGENT: ", texts);
      CallLinesAre(Stamp(ts), calls);
    case _ =>
  }
}
