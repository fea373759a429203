/** Terminal-cell arithmetic of the pane (`ui/companion_render.py`): taking, clipping and wrapping text
    by cells, for any table of character widths between zero and two. */
module Cells {
  import opened Text
  import opened Splitting

  /** The Unicode tables the renderer consults: cells per character, and category C. */
  datatype Tables = Tables(width: char -> nat, control: char -> bool)

  predicate IsPrintableAscii(c: char) {
    ' ' <= c <= '~'
  }

  ghost predicate Known(t: Tables) {
    && (forall c :: t.width(c) <= 2)
    && t.width(ELLIPSIS) == 1 && !t.control(ELLIPSIS)
    && (forall c :: IsPrintableAscii(c) ==> t.width(c) == 1 && !t.control(c))
    && (forall c :: c < ' ' ==> t.control(c))
  }

  /** `cell_width` of text without escape sequences. */
  function CellWidth(t: Tables, s: string): nat {
    if s == "" then 0 else CellWidth(t, s[..|s| - 1]) + t.width(s[|s| - 1])
  }

  lemma {:induction false} CellsAdd(t: Tables, a: string, b: string)
    ensures CellWidth(t, a + b) == CellWidth(t, a) + CellWidth(t, b)
  {
    if b == "" {
      assert a + b == a;
    } else {
      assert (a + b)[..|a + b| - 1] == a + b[..|b| - 1];
      CellsAdd(t, a, b[..|b| - 1]);
    }
  }

  lemma OneCell(t: Tables, c: char)
    ensures CellWidth(t, [c]) == t.width(c)
  {
    assert [c][..0] == "";
  }

  // ----- Taking a prefix -----

  function TakenFrom(t: Tables, s: string, width: nat, i: nat, used: nat): (string, string)
    requires i <= |s|
    decreases |s| - i
  {
    if i == |s| then (s, "")
    else if used == 0 && t.width(s[i]) > width then ([ELLIPSIS], s[i + 1..])
    else if used + t.width(s[i]) > width then (s[..i], s[i..])
    else TakenFrom(t, s, width, i + 1, used + t.width(s[i]))
  }

  function Taken(t: Tables, s: string, width: int): (string, string) {
    if width <= 0 then ("", s) else TakenFrom(t, s, width, 0, 0)
  }

  /** `_take_cells`. */
  method TakeCells(t: Tables, s: string, width: int) returns (prefix: string, rest: string)
    ensures (prefix, rest) == Taken(t, s, width)
  {
    if width <= 0 { return "", s; }
    var used: nat := 0;
    for i := 0 to |s|
      invariant TakenFrom(t, s, width, 0, 0) == TakenFrom(t, s, width, i, used)
    {
      var cells := t.width(s[i]);
      if used == 0 && cells > width { return [ELLIPSIS], s[i + 1..]; }
      if used + cells > width { return s[..i], s[i..]; }
      used := used + cells;
    }
    return s, "";
  }

  predicate AllFit(t: Tables, s: string, width: int) {
    forall i :: 0 <= i < |s| ==> t.width(s[i]) <= width
  }

  /** A character wider than the pane behind at most zero-width ones: the only thing an ellipsis replaces. */
  predicate TooWideAt(t: Tables, s: string, width: int, i: nat) {
    i < |s| && CellWidth(t, s[..i]) == 0 && t.width(s[i]) > width
  }

  /** The prefix fits and is never empty; it splits the text, or an ellipsis stands for a character
      that cannot fit. */
  lemma {:induction false} TakenFromShape(t: Tables, s: string, width: nat, i: nat, used: nat)
    requires i <= |s| && used == CellWidth(t, s[..i]) && used <= width && (i > 0 || s != "")
    ensures var (a, b) := TakenFrom(t, s, width, i, used);
            || (a + b == s && a != "" && CellWidth(t, a) <= width && (b != "" ==> used <= CellWidth(t, a)))
            || (a == [ELLIPSIS] && exists k: nat :: TooWideAt(t, s, width, k) && b == s[k + 1..])
    decreases |s| - i
  {
    if i == |s| {
      assert s[..i] == s;
    } else if used == 0 && t.width(s[i]) > width {
      assert TooWideAt(t, s, width, i);
    } else if used + t.width(s[i]) > width {
      assert s[..i] + s[i..] == s;
      assert s[..0] == "" && CellWidth(t, "") == 0;
    } else {
      assert s[..i + 1][..i] == s[..i];
      TakenFromShape(t, s, width, i + 1, used + t.width(s[i]));
    }
  }

  lemma TakenShape(t: Tables, s: string, width: int)
    requires width >= 1 && s != ""
    ensures var (a, b) := Taken(t, s, width);
            && a != "" && |b| < |s|
            && ((a + b == s && CellWidth(t, a) <= width)
                || (a == [ELLIPSIS] && exists k: nat :: TooWideAt(t, s, width, k) && b == s[k + 1..]))
  {
    TakenFromShape(t, s, width, 0, 0);
    var (a, b) := Taken(t, s, width);
    if a + b == s { assert |a| + |b| == |s|; }
  }

  lemma TakenFits(t: Tables, s: string, width: int)
    requires width >= 1 && s != "" && t.width(ELLIPSIS) == 1
    ensures CellWidth(t, Taken(t, s, width).0) <= width
    ensures AllFit(t, s, width) ==> Taken(t, s, width).0 + Taken(t, s, width).1 == s
  {
    hide Taken;
    TakenShape(t, s, width);
    OneCell(t, ELLIPSIS);
  }

  lemma {:induction false} FittingIsTakenWhole(t: Tables, s: string, width: nat, i: nat, used: nat)
    requires i <= |s| && used == CellWidth(t, s[..i]) && CellWidth(t, s) <= width
    ensures TakenFrom(t, s, width, i, used) == (s, "")
    decreases |s| - i
  {
    if i < |s| {
      assert s[..i + 1][..i] == s[..i];
      assert s == s[..i + 1] + s[i + 1..];
      CellsAdd(t, s[..i + 1], s[i + 1..]);
      FittingIsTakenWhole(t, s, width, i + 1, used + t.width(s[i]));
    }
  }

  lemma OneMore(t: Tables, s: string, i: nat)
    requires i < |s|
    ensures CellWidth(t, s[..i + 1]) == CellWidth(t, s[..i]) + t.width(s[i])
  {
    assert s[..i + 1][..i] == s[..i];
  }

  lemma PartCells(t: Tables, s: string, i: nat, j: nat)
    requires i <= j <= |s|
    ensures CellWidth(t, s[..i]) <= CellWidth(t, s[..j])
  {
    assert s[..j] == s[..i] + s[i..j];
    CellsAdd(t, s[..i], s[i..j]);
  }

  lemma {:induction false} TakenCoversFrom(t: Tables, s: string, width: nat, k: nat, i: nat, used: nat)
    requires 1 <= k <= |s| && i <= |s| && used == CellWidth(t, s[..i]) && t.width(s[0]) >= 1
             && CellWidth(t, s[..k]) <= width
    ensures s[..k] <= TakenFrom(t, s, width, i, used).0 || used > width
    decreases |s| - i
  {
    hide CellWidth;
    if i < |s| && used <= width {
      OneMore(t, s, i);
      if i < k {
        PartCells(t, s, i + 1, k);
      } else {
        PartCells(t, s, 1, i);
        OneMore(t, s, 0);
      }
      if used + t.width(s[i]) <= width { TakenCoversFrom(t, s, width, k, i + 1, used + t.width(s[i])); }
    }
  }

  /** A prefix that fits and shows something is taken. */
  lemma TakenCovers(t: Tables, s: string, width: int, k: nat)
    requires width >= 1 && 1 <= k <= |s| && t.width(s[0]) >= 1 && CellWidth(t, s[..k]) <= width
    ensures s[..k] <= Taken(t, s, width).0
  {
    TakenCoversFrom(t, s, width, k, 0, 0);
  }

  // ----- Wrapping -----

  /** A word cut into pieces that fit. */
  function Chunks(t: Tables, word: string, width: int): (chunks: seq<string>)
    requires width >= 1
    ensures word != "" ==> chunks != []
    decreases |word|
  {
    if word == "" then []
    else
      TakenShape(t, word, width);
      var (chunk, rest) := Taken(t, word, width);
      [chunk] + Chunks(t, rest, width)
  }

  datatype Pen = Pen(lines: seq<string>, current: string)

  function AddWord(t: Tables, width: int, p: Pen, word: string): Pen
    requires width >= 1 && word != ""
  {
    var chunks := Chunks(t, word, width);
    if |chunks| > 1 then
      Pen(p.lines + (if p.current != "" then [p.current] else []) + chunks[..|chunks| - 1], chunks[|chunks| - 1])
    else if p.current == "" then Pen(p.lines, word)
    else if CellWidth(t, p.current + " " + word) <= width then Pen(p.lines, p.current + " " + word)
    else Pen(p.lines + [p.current], word)
  }

  predicate AreWords(words: seq<string>) {
    forall i :: 0 <= i < |words| ==> IsWord(words[i])
  }

  function Write(t: Tables, width: int, words: seq<string>): Pen
    requires width >= 1 && AreWords(words)
  {
    if words == [] then Pen([], "") else AddWord(t, width, Write(t, width, words[..|words| - 1]), words[|words| - 1])
  }

  function Wrapped(t: Tables, words: seq<string>, width: int): seq<string>
    requires AreWords(words)
  {
    if width <= 0 then []
    else
      var p := Write(t, width, words);
      p.lines + if p.current != "" then [p.current] else []
  }

  lemma ChunksStep(t: Tables, word: string, width: int)
    requires width >= 1 && word != ""
    ensures Taken(t, word, width).0 != "" && |Taken(t, word, width).1| < |word|
    ensures Chunks(t, word, width) == [Taken(t, word, width).0] + Chunks(t, Taken(t, word, width).1, width)
  {
    TakenShape(t, word, width);
  }

  /** The inner loop of `_wrap_words`; its fallback for an empty piece is never reached. */
  method SplitWord(t: Tables, word: string, width: int) returns (chunks: seq<string>)
    requires width >= 1
    ensures chunks == Chunks(t, word, width)
  {
    hide Taken, Chunks;
    chunks := [];
    var remainder := word;
    while remainder != ""
      invariant chunks + Chunks(t, remainder, width) == Chunks(t, word, width)
      decreases |remainder|
    {
      ChunksStep(t, remainder, width);
      var chunk, rest := TakeCells(t, remainder, width);
      assert chunk != "";
      chunks := chunks + [chunk];
      remainder := rest;
    }
    NoChunks(t, width);
  }

  lemma NoChunks(t: Tables, width: int)
    requires width >= 1
    ensures Chunks(t, "", width) == []
  {
  }

  /** `_wrap_words` on sanitized text. */
  method WrapWords(t: Tables, text: string, width: int) returns (lines: seq<string>)
    ensures lines == Wrapped(t, Words(text), width)
  {
    hide Chunks, CellWidth, IsWord, Words;
    if width <= 0 { return []; }
    var words := Words(text);
    lines := [];
    var current := "";
    for i := 0 to |words|
      invariant Pen(lines, current) == Write(t, width, words[..i])
    {
      assert words[..i + 1][..i] == words[..i];
      var word := words[i];
      WordNotEmpty(word);
      var chunks := SplitWord(t, word, width);
      if |chunks| > 1 {
        if current != "" {
          lines := lines + [current];
        }
        lines := lines + chunks[..|chunks| - 1];
        current := chunks[|chunks| - 1];
      } else {
        var candidate := if current == "" then word else current + " " + word;
        if current == "" || CellWidth(t, candidate) <= width {
          current := candidate;
        } else {
          lines := lines + [current];
          current := word;
        }
      }
    }
    assert words[..|words|] == words;
    if current != "" { lines := lines + [current]; }
  }

  lemma WordNotEmpty(word: string)
    requires IsWord(word)
    ensures word != ""
  {
  }

  // ----- Every line fits, with one exception -----

  /** A word that is one character wider than the pane, behind at most zero-width ones. */
  predicate LoneWide(t: Tables, word: string, width: int) {
    word != "" && TooWideAt(t, word, width, |word| - 1)
  }

  lemma {:induction false} ChunksFit(t: Tables, word: string, width: int)
    requires width >= 1 && t.width(ELLIPSIS) == 1
    ensures forall i :: 0 <= i < |Chunks(t, word, width)| ==>
              Chunks(t, word, width)[i] != "" && CellWidth(t, Chunks(t, word, width)[i]) <= width
    ensures |Chunks(t, word, width)| == 1 ==> CellWidth(t, word) <= width || LoneWide(t, word, width)
    decreases |word|
  {
    hide Taken, CellWidth;
    if word != "" {
      TakenShape(t, word, width);
      TakenFits(t, word, width);
      var (a, b) := Taken(t, word, width);
      ChunksFit(t, b, width);
      if |Chunks(t, word, width)| == 1 {
        assert b == "";
        assert a + "" == a;
      }
    }
  }

  predicate Fits(t: Tables, p: Pen, width: int) {
    CellWidth(t, p.current) <= width && forall i :: 0 <= i < |p.lines| ==> CellWidth(t, p.lines[i]) <= width
  }

  predicate Overfull(t: Tables, p: Pen, width: int) {
    CellWidth(t, p.current) > width || exists i :: 0 <= i < |p.lines| && CellWidth(t, p.lines[i]) > width
  }

  lemma AddWordFits(t: Tables, width: int, p: Pen, word: string)
    requires width >= 1 && word != "" && t.width(ELLIPSIS) == 1
    requires Fits(t, p, width) && !LoneWide(t, word, width)
    ensures Fits(t, AddWord(t, width, p, word), width)
  {
    hide CellWidth, Chunks, LoneWide;
    ChunksFit(t, word, width);
  }

  lemma LoneWideChunks(t: Tables, word: string, width: int)
    requires width >= 1 && LoneWide(t, word, width)
    ensures Chunks(t, word, width) == [[ELLIPSIS]] && CellWidth(t, word) > width
  {
    LoneWideTaken(t, word, width, 0);
    assert word[..|word| - 1] + [word[|word| - 1]] == word;
    assert word[|word|..] == "";
  }

  lemma {:induction false} LoneWideTaken(t: Tables, word: string, width: nat, i: nat)
    requires LoneWide(t, word, width) && i < |word|
    ensures TakenFrom(t, word, width, i, 0) == ([ELLIPSIS], word[|word|..])
    decreases |word| - i
  {
    if i < |word| - 1 {
      var init := word[..|word| - 1];
      assert init == init[..i] + ([init[i]] + init[i + 1..]);
      CellsAdd(t, init[..i], [init[i]] + init[i + 1..]);
      CellsAdd(t, [init[i]], init[i + 1..]);
      OneCell(t, init[i]);
      LoneWideTaken(t, word, width, i + 1);
    }
  }

  lemma AddWordOverfull(t: Tables, width: int, p: Pen, word: string)
    requires width >= 1 && word != "" && (Overfull(t, p, width) || LoneWide(t, word, width))
    ensures Overfull(t, AddWord(t, width, p, word), width)
  {
    hide Chunks, LoneWide;
    var q := AddWord(t, width, p, word);
    if LoneWide(t, word, width) {
      LoneWideChunks(t, word, width);
      if p.current != "" { CellsAdd(t, p.current + " ", word); }
    } else if CellWidth(t, p.current) > width {
      assert p.current != "";
      CellsAdd(t, p.current, " " + word);
      assert p.current + (" " + word) == p.current + " " + word;
      assert q.lines[|p.lines|] == p.current;
    } else {
      var i :| 0 <= i < |p.lines| && CellWidth(t, p.lines[i]) > width;
      assert q.lines[i] == p.lines[i];
    }
  }

  predicate SomeLoneWide(t: Tables, words: seq<string>, width: int) {
    exists i :: 0 <= i < |words| && LoneWide(t, words[i], width)
  }

  lemma {:induction false} PenFitsExactly(t: Tables, words: seq<string>, width: int)
    requires width >= 1 && AreWords(words) && t.width(ELLIPSIS) == 1
    ensures Fits(t, Write(t, width, words), width) <==> !SomeLoneWide(t, words, width)
    ensures Overfull(t, Write(t, width, words), width) <==> SomeLoneWide(t, words, width)
  {
    hide CellWidth, AddWord, LoneWide, IsWord;
    if words == [] {
      assert CellWidth(t, "") == 0 by { NoCells(t); }
    } else {
      var n := |words| - 1;
      PenFitsExactly(t, words[..n], width);
      WordNotEmpty(words[n]);
      if SomeLoneWide(t, words, width) {
        var i :| 0 <= i < |words| && LoneWide(t, words[i], width);
        if i < n { assert LoneWide(t, words[..n][i], width); }
        AddWordOverfull(t, width, Write(t, width, words[..n]), words[n]);
      } else {
        assert !LoneWide(t, words[n], width);
        forall i | 0 <= i < n ensures !LoneWide(t, words[..n][i], width) {
          assert words[..n][i] == words[i];
        }
        AddWordFits(t, width, Write(t, width, words[..n]), words[n]);
      }
    }
  }

  lemma NoCells(t: Tables)
    ensures CellWidth(t, "") == 0
  {
  }

  /** Every wrapped line fits its width exactly when no word is a single character too wide for the
      pane; such a word is emitted whole. */
  lemma LinesFitExactly(t: Tables, words: seq<string>, width: int)
    requires width >= 1 && AreWords(words) && t.width(ELLIPSIS) == 1
    ensures (forall i :: 0 <= i < |Wrapped(t, words, width)| ==> CellWidth(t, Wrapped(t, words, width)[i]) <= width)
            <==> !SomeLoneWide(t, words, width)
  {
    hide CellWidth, Write, LoneWide, IsWord;
    PenFitsExactly(t, words, width);
    NoCells(t);
    var p, lines := Write(t, width, words), Wrapped(t, words, width);
    if Overfull(t, p, width) {
      if CellWidth(t, p.current) > width {
        assert lines[|p.lines|] == p.current;
      } else {
        var i :| 0 <= i < |p.lines| && CellWidth(t, p.lines[i]) > width;
        assert lines[i] == p.lines[i];
      }
    }
  }

  /** It does happen: one double-width character in a pane of one cell. */
  lemma WideCharacterOverflows(t: Tables)
    requires t.width('\U{5B57}') == 2 && t.width(ELLIPSIS) == 1
    ensures AreWords(["\U{5B57}"]) && Wrapped(t, ["\U{5B57}"], 1) == ["\U{5B57}"] && CellWidth(t, "\U{5B57}") == 2
  {
    var word := "\U{5B57}";
    OneCell(t, word[0]);
    assert word == [word[0]];
    var words: seq<string> := [word];
    assert words[..0] == [];
    ChunksStep(t, word, 1);
    assert Taken(t, word, 1) == ([ELLIPSIS], "");
    assert Write(t, 1, words) == AddWord(t, 1, Pen([], ""), word);
  }

  // ----- Nothing is lost -----

  /** The words of several lines, in order. */
  function WordsOf(lines: seq<string>): seq<string> {
    if lines == [] then [] else WordsOf(lines[..|lines| - 1]) + Words(lines[|lines| - 1])
  }

  predicate EveryWordFits(t: Tables, words: seq<string>, width: int) {
    forall i :: 0 <= i < |words| ==> CellWidth(t, words[i]) <= width
  }

  lemma FittingChunks(t: Tables, word: string, width: int)
    requires width >= 1 && word != "" && CellWidth(t, word) <= width
    ensures Chunks(t, word, width) == [word]
  {
    hide CellWidth;
    NoCells(t);
    FittingIsTakenWhole(t, word, width, 0, 0);
  }

  lemma {:induction false} WordsOfLast(lines: seq<string>, line: string)
    ensures WordsOf(lines + [line]) == WordsOf(lines) + Words(line)
  {
    assert (lines + [line])[..|lines|] == lines;
  }

  lemma {:induction false} PenKeepsWords(t: Tables, words: seq<string>, width: int)
    requires width >= 1 && AreWords(words) && EveryWordFits(t, words, width)
    ensures var p := Write(t, width, words); WordsOf(p.lines) + Words(p.current) == words
  {
    hide CellWidth, IsWord, Words, WordsOf, Chunks;
    if words == [] {
      NoWords();
    } else {
      var n := |words| - 1;
      var init, word := words[..n], words[n];
      PenKeepsWords(t, init, width);
      var p := Write(t, width, init);
      WordNotEmpty(word);
      FittingChunks(t, word, width);
      WordsOfOne(word);
      WordsAppend(p.current, word);
      WordsOfLast(p.lines, p.current);
      assert init + [word] == words;
    }
  }

  lemma NoWords()
    ensures Words("") == [] && WordsOf([]) == []
  {
  }

  /** When every word fits the width, splitting the lines again gives the words back, in order. */
  lemma WrappingKeepsWords(t: Tables, words: seq<string>, width: int)
    requires width >= 1 && AreWords(words) && EveryWordFits(t, words, width)
    ensures WordsOf(Wrapped(t, words, width)) == words
  {
    hide Write, Words, WordsOf, IsWord;
    PenKeepsWords(t, words, width);
    var p := Write(t, width, words);
    if p.current != "" {
      WordsOfLast(p.lines, p.current);
    } else {
      NoWords();
      assert p.lines + [] == p.lines && WordsOf(p.lines) + [] == WordsOf(p.lines);
    }
  }

  /** Text without its blanks. */
  function Letters(s: string): string {
    if s == "" then "" else Letters(s[..|s| - 1]) + if s[|s| - 1] == ' ' then "" else [s[|s| - 1]]
  }

  function Concat(parts: seq<string>): string {
    if parts == [] then "" else Concat(parts[..|parts| - 1]) + parts[|parts| - 1]
  }

  lemma {:induction false} LettersAdd(a: string, b: string)
    ensures Letters(a + b) == Letters(a) + Letters(b)
  {
    if b == "" {
      assert a + b == a;
    } else {
      assert (a + b)[..|a + b| - 1] == a + b[..|b| - 1];
      LettersAdd(a, b[..|b| - 1]);
    }
  }

  lemma {:induction false} ConcatAdd(a: seq<string>, b: seq<string>)
    ensures Concat(a + b) == Concat(a) + Concat(b)
  {
    if b == [] {
      assert a + b == a;
    } else {
      assert (a + b)[..|a + b| - 1] == a + b[..|b| - 1];
      ConcatAdd(a, b[..|b| - 1]);
    }
  }

  lemma {:induction false} WordIsLetters(word: string)
    requires forall i :: 0 <= i < |word| ==> !IsSpace(word[i])
    ensures Letters(word) == word
  {
    if word != "" {
      WordIsLetters(word[..|word| - 1]);
      assert !IsSpace(word[|word| - 1]);
      assert word == word[..|word| - 1] + [word[|word| - 1]];
    }
  }

  lemma ConcatOne(s: string)
    ensures Concat([s]) == s && Concat([]) == "" && Letters("") == "" && Letters(" ") == ""
  {
    assert [s][..0] == [];
    assert " "[..0] == "";
  }

  /** Pieces of a word whose characters all fit join to the word. */
  lemma {:induction false} ChunksJoin(t: Tables, word: string, width: int)
    requires width >= 1 && AllFit(t, word, width) && t.width(ELLIPSIS) == 1
    ensures Concat(Chunks(t, word, width)) == word
    decreases |word|
  {
    hide Taken, Concat, CellWidth;
    ConcatOne("");
    if word != "" {
      var (a, b) := Taken(t, word, width);
      TakenShape(t, word, width);
      TakenFits(t, word, width);
      assert forall i :: 0 <= i < |b| ==> b[i] == word[|a| + i];
      ChunksJoin(t, b, width);
      ConcatOne(a);
      ConcatAdd([a], Chunks(t, b, width));
    }
  }

  lemma AddWordLetters(t: Tables, width: int, p: Pen, word: string)
    requires width >= 1 && IsWord(word) && AllFit(t, word, width) && t.width(ELLIPSIS) == 1
    ensures var q := AddWord(t, width, p, word);
            Letters(Concat(q.lines) + q.current) == Letters(Concat(p.lines) + p.current) + word
  {
    hide Chunks, CellWidth, Concat, Letters, AllFit;
    var chunks, q := Chunks(t, word, width), AddWord(t, width, p, word);
    WordIsLetters(word);
    ChunksJoin(t, word, width);
    ConcatOne(p.current);
    var carried := if p.current != "" then [p.current] else [];
    ConcatAdd(p.lines, carried);
    assert Concat(p.lines + carried) == Concat(p.lines) + p.current;
    var before := Concat(p.lines) + p.current;
    if |chunks| > 1 {
      var pieces, last := chunks[..|chunks| - 1], chunks[|chunks| - 1];
      ConcatAdd(p.lines + carried, pieces);
      assert chunks == pieces + [last];
      ConcatAdd(pieces, [last]);
      ConcatOne(last);
      assert Concat(q.lines) + q.current == before + word;
      LettersAdd(before, word);
    } else if q.lines == p.lines && p.current != "" {
      assert Concat(q.lines) + q.current == before + " " + word;
      LettersAdd(before + " ", word);
      LettersAdd(before, " ");
      assert Letters(before) + "" == Letters(before);
    } else {
      assert Concat(q.lines) + q.current == before + word;
      LettersAdd(before, word);
    }
  }

  predicate EveryCharacterFits(t: Tables, words: seq<string>, width: int) {
    forall i :: 0 <= i < |words| ==> AllFit(t, words[i], width)
  }

  lemma {:induction false} PenKeepsLetters(t: Tables, words: seq<string>, width: int)
    requires width >= 1 && AreWords(words) && EveryCharacterFits(t, words, width) && t.width(ELLIPSIS) == 1
    ensures var p := Write(t, width, words); Letters(Concat(p.lines) + p.current) == Concat(words)
  {
    hide AddWord, IsWord, AllFit, Letters;
    if words == [] {
      ConcatOne("");
    } else {
      var n := |words| - 1;
      PenKeepsLetters(t, words[..n], width);
      WordNotEmpty(words[n]);
      AddWordLetters(t, width, Write(t, width, words[..n]), words[n]);
    }
  }

  /** When every character fits the width, wrapping loses and reorders none of them. */
  lemma WrappingKeepsLetters(t: Tables, words: seq<string>, width: int)
    requires width >= 1 && AreWords(words) && EveryCharacterFits(t, words, width) && t.width(ELLIPSIS) == 1
    ensures Letters(Concat(Wrapped(t, words, width))) == Concat(words)
  {
    hide Write, Concat, Letters, IsWord, AllFit;
    PenKeepsLetters(t, words, width);
    var p := Write(t, width, words);
    ConcatOne(p.current);
    ConcatAdd(p.lines, if p.current != "" then [p.current] else []);
  }

  // ----- Clipping -----

  /** `_clip_layout_cells` on text whose controls are blanks already. */
  function Clipped(t: Tables, s: string, width: int): string {
    if width <= 0 then ""
    else if CellWidth(t, s) <= width then s
    else if width == 1 then [ELLIPSIS]
    else Taken(t, s, width - 1).0 + [ELLIPSIS]
  }

  /** A clipped row fits; one that fits already is left alone. */
  lemma ClippedFits(t: Tables, s: string, width: int)
    requires t.width(ELLIPSIS) == 1
    ensures CellWidth(t, Clipped(t, s, width)) <= if width <= 0 then 0 else width
    ensures 0 <= width && CellWidth(t, s) <= width ==> CellWidth(t, Clipped(t, s, width)) == CellWidth(t, s)
  {
    hide Taken;
    NoCells(t);
    OneCell(t, ELLIPSIS);
    if width > 1 && CellWidth(t, s) > width {
      TakenFits(t, s, width - 1);
      CellsAdd(t, Taken(t, s, width - 1).0, [ELLIPSIS]);
    }
  }
}
