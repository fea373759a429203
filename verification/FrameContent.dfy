/** What stands in which row of the pane (`ui/companion_render.py`): the sections one below the other, a
    label in front of each section's first row, and as much of every value as its row can show. */
module FrameContent {
  import opened Text
  import opened Cells
  import opened Rows
  import opened Frame

  // ----- Clipping -----

  lemma {:induction false} PrefixIsLongest(t: Tables, s: string, target: nat, i: nat, used: nat)
    requires i <= |s| && used == CellWidth(t, s[..i]) && used <= target
    ensures var p := Prefix(t, s, target, i, used);
            p <= s && CellWidth(t, p) <= target && (p != s ==> CellWidth(t, s[..|p| + 1]) > target)
    decreases |s| - i
  {
    hide CellWidth;
    if i < |s| {
      OneMore(t, s, i);
      if used + t.width(s[i]) <= target { PrefixIsLongest(t, s, target, i + 1, used + t.width(s[i])); }
    }
  }

  /** Of a line that does not fit, the longest beginning that leaves room for an ellipsis. */
  lemma ClipsExactly(t: Tables, value: string, width: int)
    ensures var text := Sanitized(t, value);
            && (width <= 0 ==> ClipCells(t, value, width) == "")
            && (width >= 1 && CellWidth(t, text) <= width ==> ClipCells(t, value, width) == text)
            && (width == 1 && CellWidth(t, text) > 1 ==> ClipCells(t, value, width) == [ELLIPSIS])
    ensures width >= 2 && CellWidth(t, Sanitized(t, value)) > width ==>
              var text, clipped := Sanitized(t, value), ClipCells(t, value, width);
              var n := |clipped| - 1;
              && 0 <= n < |text| && clipped == text[..n] + [ELLIPSIS]
              && CellWidth(t, text[..n]) < width && CellWidth(t, text[..n + 1]) >= width
  {
    hide Sanitized;
    NoCells(t);
    if width >= 2 {
      var text := Sanitized(t, value);
      PrefixIsLongest(t, text, width - 1, 0, 0);
      var p := Prefix(t, text, width - 1, 0, 0);
      assert p == text[..|p|];
    }
  }

  // ----- Rows -----

  /** What stands in the first nine columns of a section's `i`-th row. */
  function LabelAt(section: Label, i: nat): string {
    if i > 0 then "         "
    else
      match section
      case Request => "REQUEST  "
      case Now => "NOW      "
      case Ask => "ASK      "
      case Command => "COMMAND  "
      case Detail => "DETAIL   "
  }

  /** The rows above a section's own. */
  function Above(counts: Counts, section: Label): nat {
    match section
    case Request => 0
    case Now => counts.request
    case Ask => counts.request + counts.now
    case Command => counts.request + counts.now + counts.ask
    case Detail => counts.request + counts.now + counts.ask + counts.command
  }

  /** A value, marked when it is the last one shown of a REQUEST or NOW that holds more. */
  function ShownValue(section: Label, values: seq<Line>, count: nat, i: nat): string
    requires i < |values|
  {
    if (section == Request || section == Now) && i + 1 == count < |values| then values[i].text + [ELLIPSIS]
    else values[i].text
  }

  lemma LabelSpelled(section: Label, i: nat)
    ensures Margin(section, i, 9) == LabelAt(section, i)
  {
    assert Spaces(2) == "  " && Spaces(3) == "   " && Spaces(6) == "      " && Spaces(9) == "         ";
  }

  lemma ContentLineIs(t: Tables, section: Label, values: seq<Line>, count: nat, width: int, i: nat)
    requires i < |values| && width > 9
    ensures ContentLine(t, section, values, count, width, i) ==
            Line(LabelAt(section, i) + ClipCells(t, ShownValue(section, values, count, i), width - 9), values[i].color)
  {
    hide ClipCells, Margin, LabelAt;
    LabelSpelled(section, i);
  }

  lemma LinesLast(t: Tables, s: Sections, counts: Counts, width: int, labels: seq<Label>, last: Label)
    ensures LinesOf(t, s, counts, width, labels + [last]) ==
            LinesOf(t, s, counts, width, labels) + SectionLines(t, last, s.Of(last), counts.Of(last), width)
  {
    assert (labels + [last])[..|labels|] == labels;
  }

  lemma LinesUnfold(t: Tables, s: Sections, counts: Counts, width: int)
    ensures LinesOf(t, s, counts, width, DISPLAY_ORDER) ==
            SectionLines(t, Request, s.request, counts.request, width)
            + SectionLines(t, Now, s.now, counts.now, width) + SectionLines(t, Ask, s.ask, counts.ask, width)
            + SectionLines(t, Command, s.command, counts.command, width)
            + SectionLines(t, Detail, s.detail, counts.detail, width)
  {
    hide SectionLines, LinesOf;
    NoLines(t, s, counts, width);
    LinesLast(t, s, counts, width, [], Request);
    assert [] + [Request] == [Request] && [Request] + [Now] == [Request, Now];
    LinesLast(t, s, counts, width, [Request], Now);
    LinesLast(t, s, counts, width, [Request, Now], Ask);
    assert [Request, Now] + [Ask] == [Request, Now, Ask];
    LinesLast(t, s, counts, width, [Request, Now, Ask], Command);
    assert [Request, Now, Ask] + [Command] == [Request, Now, Ask, Command];
    LinesLast(t, s, counts, width, [Request, Now, Ask, Command], Detail);
    assert [Request, Now, Ask, Command] + [Detail] == DISPLAY_ORDER;
  }

  /** Every value that has a row stands in it, behind its section's label, and no row holds anything
      else. */
  lemma RowShows(t: Tables, s: Sections, width: int, rows: int, section: Label, i: nat)
    requires i < Allocated(s.Lengths(), rows).Of(section) && width > 9
    ensures var counts, content := Allocated(s.Lengths(), rows), Content(t, s, width, rows);
            && |content| == counts.Sum() && counts.Of(section) <= |s.Of(section)|
            && Above(counts, section) + i < |content|
            && content[Above(counts, section) + i] ==
               Line(LabelAt(section, i)
                    + ClipCells(t, ShownValue(section, s.Of(section), counts.Of(section), i), width - 9),
                    s.Of(section)[i].color)
  {
    hide ClipCells, LabelAt, ShownValue, ContentLine, Allocated, LinesOf;
    var counts := Allocated(s.Lengths(), rows);
    NoRowWasted(s.Lengths(), rows);
    LinesUnfold(t, s, counts, width);
    ContentLineIs(t, section, s.Of(section), counts.Of(section), width, i);
    assert SectionLines(t, section, s.Of(section), counts.Of(section), width)[i]
           == ContentLine(t, section, s.Of(section), counts.Of(section), width, i);
  }
}
