/** Where wrapped text is broken (`ui/companion_render.py`): a line ends only when the next word does
    not fit behind it, and a word too long for a line is cut only where the next character does not. */
module GreedyWrap {
  import opened Text
  import opened Splitting
  import opened Cells

  /** The line below starts with a word that does not fit at the end of this one. */
  predicate BrokenInNeed(t: Tables, width: int, line: string, below: string) {
    Words(below) != [] && CellWidth(t, line + " " + Words(below)[0]) > width
  }

  /** Words with single spaces between them. */
  predicate IsLine(line: string) {
    Words(line) != [] && line == Join(Words(line), " ")
  }

  predicate Greedy(t: Tables, width: int, lines: seq<string>) {
    && (forall i :: 0 <= i < |lines| ==> IsLine(lines[i]))
    && forall i :: 0 <= i < |lines| - 1 ==> BrokenInNeed(t, width, lines[i], lines[i + 1])
  }

  /** The lines so far with the one being written. */
  function AllLines(p: Pen): seq<string> {
    if p.current == "" then p.lines else p.lines + [p.current]
  }

  lemma OneWordLine(word: string)
    requires IsWord(word)
    ensures Words(word) == [word] && IsLine(word) && word != ""
  {
    WordsOfOne(word);
  }

  lemma LongerLine(line: string, word: string)
    requires IsLine(line) && IsWord(word)
    ensures IsLine(line + " " + word) && Words(line + " " + word)[0] == Words(line)[0] && line != ""
  {
    WordsUnfold("");
    WordsAppend(line, word);
    JoinAppend(Words(line), word, " ");
  }

  lemma GreedyLast(t: Tables, width: int, lines: seq<string>, was: string, now: string)
    requires Greedy(t, width, lines + [was]) && IsLine(was) && IsLine(now) && Words(now)[0] == Words(was)[0]
    ensures Greedy(t, width, lines + [now])
  {
    hide Words, CellWidth, Join;
    var a, b := lines + [was], lines + [now];
    forall i | 0 <= i < |b| ensures IsLine(b[i]) { assert IsLine(a[i]); }
    forall i | 0 <= i < |b| - 1 ensures BrokenInNeed(t, width, b[i], b[i + 1]) {
      assert BrokenInNeed(t, width, a[i], a[i + 1]);
    }
  }

  lemma GreedyMore(t: Tables, width: int, lines: seq<string>, below: string)
    requires Greedy(t, width, lines) && IsLine(below)
    requires lines != [] ==> BrokenInNeed(t, width, lines[|lines| - 1], below)
    ensures Greedy(t, width, lines + [below])
  {
    hide Words, CellWidth, Join;
    var all := lines + [below];
    forall i | 0 <= i < |all| - 1 ensures BrokenInNeed(t, width, all[i], all[i + 1]) {
      if i < |lines| - 1 { assert BrokenInNeed(t, width, lines[i], lines[i + 1]); }
    }
  }

  lemma AddWordGreedy(t: Tables, width: int, p: Pen, word: string)
    requires width >= 1 && IsWord(word) && CellWidth(t, word) <= width
    requires Greedy(t, width, AllLines(p)) && (p.current == "" ==> p.lines == [])
    ensures var q := AddWord(t, width, p, word); Greedy(t, width, AllLines(q)) && q.current != ""
  {
    hide Words, CellWidth, Join, Chunks, Greedy, IsWord, IsLine, BrokenInNeed;
    OneWordLine(word);
    FittingChunks(t, word, width);
    if p.current == "" {
      GreedyMore(t, width, [], word);
      assert [] + [word] == [word];
    } else {
      LineOf(t, width, p);
      if CellWidth(t, p.current + " " + word) <= width {
        LongerLine(p.current, word);
        GreedyLast(t, width, p.lines, p.current, p.current + " " + word);
      } else {
        Needed(t, width, p.current, word);
        GreedyMore(t, width, AllLines(p), word);
      }
    }
  }

  lemma LineOf(t: Tables, width: int, p: Pen)
    requires Greedy(t, width, AllLines(p)) && p.current != ""
    ensures IsLine(p.current)
  {
    assert AllLines(p)[|p.lines|] == p.current;
  }

  lemma Needed(t: Tables, width: int, line: string, word: string)
    requires Words(word) == [word] && CellWidth(t, line + " " + word) > width
    ensures BrokenInNeed(t, width, line, word)
  {
  }

  lemma {:induction false} PenGreedy(t: Tables, words: seq<string>, width: int)
    requires width >= 1 && AreWords(words) && EveryWordFits(t, words, width)
    ensures var p := Write(t, width, words); Greedy(t, width, AllLines(p)) && (p.current == "" ==> p.lines == [])
  {
    hide CellWidth, AddWord, IsWord, Greedy;
    if words == [] {
      NothingGreedy(t, width);
    } else {
      var n := |words| - 1;
      PenGreedy(t, words[..n], width);
      WordNotEmpty(words[n]);
      AddWordGreedy(t, width, Write(t, width, words[..n]), words[n]);
    }
  }

  lemma NothingGreedy(t: Tables, width: int)
    ensures Greedy(t, width, [])
  {
  }

  /** When every word fits the width, every line holds words with single spaces between them, and a line
      is broken only where the next word would not fit any more. */
  lemma WrappingIsGreedy(t: Tables, words: seq<string>, width: int)
    requires width >= 1 && AreWords(words) && EveryWordFits(t, words, width)
    ensures Greedy(t, width, Wrapped(t, words, width))
  {
    hide Write, Greedy, CellWidth, IsWord;
    PenGreedy(t, words, width);
    var p := Write(t, width, words);
    assert p.lines + [] == p.lines;
  }

  // ----- Long words -----

  /** A prefix that stops before the end stops because the next character does not fit. */
  lemma {:induction false} TakenIsLongest(t: Tables, s: string, width: nat, i: nat, used: nat)
    requires i <= |s| && used == CellWidth(t, s[..i]) && used <= width && AllFit(t, s, width)
    ensures var (a, b) := TakenFrom(t, s, width, i, used);
            a + b == s && (b != "" ==> CellWidth(t, a + b[..1]) > width)
    decreases |s| - i
  {
    hide CellWidth;
    if i < |s| {
      OneMore(t, s, i);
      if used + t.width(s[i]) > width {
        assert s[..i] + s[i..] == s && s[..i] + s[i..][..1] == s[..i + 1];
      } else {
        TakenIsLongest(t, s, width, i + 1, used + t.width(s[i]));
      }
    } else {
      assert s + "" == s && s[..i] == s;
    }
  }

  /** The first character of `below` does not fit at the end of `piece`. */
  predicate CutInNeed(t: Tables, width: int, piece: string, below: string) {
    below != "" && CellWidth(t, piece + below[..1]) > width
  }

  /** A long word is cut only where the next character would not fit any more. */
  lemma {:induction false} CutsAreNeeded(t: Tables, word: string, width: int)
    requires width >= 1 && AllFit(t, word, width)
    ensures var chunks := Chunks(t, word, width);
            forall i :: 0 <= i < |chunks| - 1 ==> CutInNeed(t, width, chunks[i], chunks[i + 1])
    decreases |word|
  {
    hide CellWidth, Taken, Chunks;
    if word == "" {
      NoChunks(t, width);
    } else {
      ChunksStep(t, word, width);
      var (a, b) := Taken(t, word, width);
      TakenLongest(t, word, width);
      assert forall i :: 0 <= i < |b| ==> b[i] == word[|a| + i];
      CutsAreNeeded(t, b, width);
      if b != "" {
        ChunksStep(t, b, width);
        var (c, d) := Taken(t, b, width);
        TakenLongest(t, b, width);
        assert c[..1] == b[..1];
      } else {
        NoChunks(t, width);
      }
    }
  }

  lemma TakenLongest(t: Tables, s: string, width: int)
    requires width >= 1 && AllFit(t, s, width) && s != ""
    ensures var (a, b) := Taken(t, s, width); a + b == s && a != "" && (b != "" ==> CellWidth(t, a + b[..1]) > width)
  {
    TakenIsLongest(t, s, width, 0, 0);
    TakenShape(t, s, width);
  }

  // ----- Clipped rows -----

  /** A row that fits is left as it is; of any other, the longest beginning that leaves room for an
      ellipsis. */
  lemma ClippedExactly(t: Tables, s: string, width: int)
    requires width >= 1
    ensures CellWidth(t, s) <= width ==> Clipped(t, s, width) == s
    ensures CellWidth(t, s) > width && AllFit(t, s, width - 1) && width >= 2 ==>
              var n := |Clipped(t, s, width)| - 1;
              && 0 <= n < |s| && Clipped(t, s, width) == s[..n] + [ELLIPSIS]
              && CellWidth(t, s[..n]) < width && CellWidth(t, s[..n + 1]) >= width
  {
    hide Taken, CellWidth;
    NoCells(t);
    if CellWidth(t, s) > width && AllFit(t, s, width - 1) && width >= 2 {
      var (a, b) := Taken(t, s, width - 1);
      TakenLongest(t, s, width - 1);
      TakenShape(t, s, width - 1);
      assert b == "" ==> a == s by { assert a + "" == a; }
      assert s[..|a|] == a && (b != "" ==> s[..|a| + 1] == a + b[..1]);
      WholeIsTaken(t, s, width - 1);
    }
  }

  lemma WholeIsTaken(t: Tables, s: string, width: int)
    requires width >= 1 && s != "" && AllFit(t, s, width)
    ensures CellWidth(t, Taken(t, s, width).0) <= width
  {
    TakenShape(t, s, width);
    var (a, b) := Taken(t, s, width);
    TakenLongest(t, s, width);
  }
}
