/** One complete screen frame (`ui/companion_render.py`): sanitizing, styling, laying out the sections
    and encoding rows of exactly the pane's width. */
module Frame {
  import opened Text
  import opened Cells
  import opened Rows

  const CYAN := [ESC] + "[36m"
  const GREEN := [ESC] + "[32m"
  const AMBER := [ESC] + "[33m"
  const MUTED := [ESC] + "[2m"
  const RED := [ESC] + "[31m"
  const RESET := [ESC] + "[0m"
  const HOME := [ESC] + "[H"

  /** The length of the escape sequence at the front of `s`, or zero when none matches. */
  function SequenceLength(s: string): (n: nat)
    requires s != "" && s[0] == ESC
    ensures n <= |s|
  {
    if |s| == 1 then 0
    else
      var p := if s[1] == '[' then Span(s, 2, '0', '?') else 2;
      var q := if s[1] == '[' then Span(s, p, ' ', '/') else 2;
      if s[1] == '[' && q < |s| && '@' <= s[q] <= '~' then q + 1
      else
        var e := if s[1] == ']' then OscEnd(s, 2) else 2;
        if s[1] == ']' && e < |s| && s[e] == BEL then e + 1
        else if s[1] == ']' && e + 1 < |s| && s[e] == ESC && s[e + 1] == '\\' then e + 2
        else if '@' <= s[1] <= '_' then 2
        else 0
  }

  /** `_ANSI_ESCAPE.sub("", s)`: what a terminal shows of `s`. */
  function Erased(s: string): string
    decreases |s|
  {
    if s == "" then ""
    else if s[0] == ESC && SequenceLength(s) > 0 then Erased(s[SequenceLength(s)..])
    else [s[0]] + Erased(s[1..])
  }

  function Blanked(t: Tables, s: string): (r: string)
    ensures |r| == |s|
    ensures forall i :: 0 <= i < |s| ==> r[i] == if IsSpace(s[i]) || t.control(s[i]) then ' ' else s[i]
  {
    seq(|s|, i requires 0 <= i < |s| => if IsSpace(s[i]) || t.control(s[i]) then ' ' else s[i])
  }

  /** `_layout_text`. */
  function Layout(t: Tables, s: string): string {
    Blanked(t, Erased(s))
  }

  /** `sanitize`. */
  function Sanitized(t: Tables, s: string): string {
    Join(Words(Layout(t, s)), " ")
  }

  /** The greedy prefix of `clip_cells`. */
  function Prefix(t: Tables, s: string, target: int, i: nat, used: int): string
    requires i <= |s|
    decreases |s| - i
  {
    if i < |s| && used + t.width(s[i]) <= target then Prefix(t, s, target, i + 1, used + t.width(s[i])) else s[..i]
  }

  /** `clip_cells`. */
  function ClipCells(t: Tables, value: string, width: int): string {
    var text := Sanitized(t, value);
    if width <= 0 then ""
    else if CellWidth(t, text) <= width then text
    else if width == 1 then [ELLIPSIS]
    else Prefix(t, text, width - 1, 0, 0) + [ELLIPSIS]
  }

  // ----- Styling -----

  predicate IsColor(c: string) {
    c == "" || IsSequence(c)
  }

  predicate IsSequence(c: string) {
    c == CYAN || c == GREEN || c == AMBER || c == MUTED || c == RED || c == RESET
  }

  /** `_STATUS_COLORS`. */
  function StatusColor(status: string): (c: Option<string>)
    ensures c.Some? ==> IsSequence(c.value)
  {
    if status == "WORKING" || status == "DONE" then Some(GREEN)
    else if status == "AWAITING_HUMAN" || status == "WAITING_FOR_USER" || status == "QUESTION" || status == "IDLE"
      || status == "UNJOINED" then Some(AMBER)
    else if status == "BLOCKED" || status == "ERROR" || status == "UNKNOWN" then Some(RED)
    else if status == "STALE" then Some(MUTED)
    else if status == "STARTING" then Some(CYAN)
    else None
  }

  function Name(section: Label): string {
    match section
    case Request => "REQUEST"
    case Now => "NOW"
    case Ask => "ASK"
    case Command => "COMMAND"
    case Detail => "DETAIL"
  }

  predicate IsLabel(s: string) {
    exists l: Label :: Name(l) == s
  }

  const LABEL_WIDTH: nat := 9

  function Head(line: string): string {
    line[..Min(LABEL_WIDTH, |line|)]
  }

  function Tail(line: string): string {
    line[Min(LABEL_WIDTH, |line|)..]
  }

  /** `_paint`. */
  function Paint(value: string, color: string): string {
    if color != "" && Strip(value) != "" then color + value + RESET else value
  }

  function Blanks(s: string): (n: nat)
    ensures n <= |s|
  {
    if s != "" && IsSpace(s[0]) then 1 + Blanks(s[1..]) else 0
  }

  /** The rest of the header, its status word coloured. */
  function ColoredRest(rest: string): string {
    var n := Blanks(rest);
    var m := n + WordLength(rest[n..]);
    var color := if 0 < n < m then StatusColor(rest[n..m]) else None;
    if color.Some? then rest[..n] + color.value + rest[n..m] + RESET + rest[m..] else rest
  }

  function StyledHeader(line: string): string
    requires "PALAVER" <= line
  {
    CYAN + "PALAVER" + RESET + ColoredRest(line[7..])
  }

  /** `_style_line`. */
  function Styled(line: string, color: string): string {
    if "PALAVER" <= line then StyledHeader(line)
    else
      var head, tail := Head(line), Tail(line);
      var name := Strip(head);
      if IsLabel(name) then CYAN + name + RESET + head[Min(|name|, |head|)..] + Paint(tail, color)
      else if name != "" then Paint(line, color)
      else head + Paint(tail, color)
  }

  // ----- Erasing what styling adds -----

  lemma {:induction false} ErasedPlain(a: string, rest: string)
    requires ESC !in a
    ensures Erased(a + rest) == a + Erased(rest)
  {
    if a == "" {
      assert a + rest == rest;
    } else {
      assert a[0] in a && (a + rest)[1..] == a[1..] + rest;
      ErasedPlain(a[1..], rest);
      assert a == [a[0]] + a[1..];
    }
  }

  lemma PlainIsErased(a: string)
    requires ESC !in a
    ensures Erased(a) == a
  {
    ErasedPlain(a, "");
    assert a + "" == a;
  }

  lemma SequenceScans(c: string, rest: string)
    requires IsSequence(c)
    ensures c != "" && c[0] == ESC && SequenceLength(c + rest) == |c|
  {
    var s := c + rest;
    var digits := |c| - 3;
    assert |c| >= 4 && s[1] == '[' && s[|c| - 1] == 'm';
    assert forall i :: 2 <= i < |c| - 1 ==> '0' <= s[i] <= '9' && s[i] == c[i];
    SpanRuns(s, 2, |c| - 1, '0', '?');
    SpanRuns(s, |c| - 1, |c| - 1, ' ', '/');
  }

  lemma {:induction false} SpanRuns(s: string, i: nat, j: nat, lo: char, hi: char)
    requires i <= j < |s| && (forall k :: i <= k < j ==> lo <= s[k] <= hi) && !(lo <= s[j] <= hi)
    ensures Span(s, i, lo, hi) == j
    decreases j - i
  {
    if i < j { SpanRuns(s, i + 1, j, lo, hi); }
  }

  lemma ErasedSequence(c: string, rest: string)
    requires IsSequence(c)
    ensures Erased(c + rest) == Erased(rest)
  {
    hide SequenceLength, IsSequence;
    SequenceScans(c, rest);
    assert (c + rest)[|c|..] == rest;
  }

  lemma ErasedPaint(value: string, color: string, rest: string)
    requires ESC !in value && IsColor(color)
    ensures Erased(Paint(value, color) + rest) == value + Erased(rest)
  {
    hide Erased, Strip, IsSequence;
    ErasedPlain(value, rest);
    if Paint(value, color) != value {
      assert color + value + RESET + rest == color + (value + (RESET + rest));
      ErasedSequence(color, value + (RESET + rest));
      ErasedPlain(value, RESET + rest);
      ResetIsSequence();
      ErasedSequence(RESET, rest);
    }
  }

  lemma ResetIsSequence()
    ensures IsSequence(RESET) && IsSequence(CYAN)
  {
  }

  lemma ErasedColored(a: string, c: string, b: string, rest: string)
    requires ESC !in a && ESC !in b && IsSequence(c)
    ensures Erased(a + c + b + RESET + rest) == a + b + Erased(rest)
  {
    hide Erased, IsSequence;
    ResetIsSequence();
    assert a + c + b + RESET + rest == a + (c + (b + (RESET + rest)));
    ErasedPlain(a, c + (b + (RESET + rest)));
    ErasedSequence(c, b + (RESET + rest));
    ErasedPlain(b, RESET + rest);
    ErasedSequence(RESET, rest);
    assert a + (b + Erased(rest)) == a + b + Erased(rest);
  }

  lemma ErasedTitle(name: string, rest: string)
    requires ESC !in name
    ensures Erased(CYAN + name + RESET + rest) == name + Erased(rest)
  {
    hide Erased, IsSequence;
    ResetIsSequence();
    assert CYAN + name + RESET + rest == "" + CYAN + name + RESET + rest;
    ErasedColored("", CYAN, name, rest);
    assert "" + name == name;
  }

  lemma Regroup(a: string, b: string, c: string)
    ensures (a + b) + c == a + (b + c)
  {
  }

  lemma ErasedColoredRest(rest: string, more: string)
    requires ESC !in rest
    ensures Erased(ColoredRest(rest) + more) == rest + Erased(more)
  {
    hide Erased, Blanks, WordLength, StatusColor, IsSequence;
    var n := Blanks(rest);
    var m := n + WordLength(rest[n..]);
    var color := if 0 < n < m then StatusColor(rest[n..m]) else None;
    if color.Some? {
      Regroup(rest[..n] + color.value + rest[n..m] + RESET, rest[m..], more);
      ErasedColored(rest[..n], color.value, rest[n..m], rest[m..] + more);
      ErasedPlain(rest[m..], more);
      Regroup(rest[..n] + rest[n..m], rest[m..], Erased(more));
      assert rest[..n] + rest[n..m] + rest[m..] == rest;
    } else {
      ErasedPlain(rest, more);
    }
  }

  lemma ErasedHeader(line: string, more: string)
    requires ESC !in line && "PALAVER" <= line
    ensures Erased(StyledHeader(line) + more) == line + Erased(more)
  {
    hide Erased, ColoredRest;
    var rest := line[7..];
    assert forall i :: 0 <= i < |rest| ==> rest[i] in line;
    assert forall i :: 0 <= i < 7 ==> "PALAVER"[i] in line;
    ErasedTitle("PALAVER", ColoredRest(rest) + more);
    assert StyledHeader(line) + more == CYAN + "PALAVER" + RESET + (ColoredRest(rest) + more);
    ErasedColoredRest(rest, more);
    assert line == "PALAVER" + rest;
    assert "PALAVER" + (rest + Erased(more)) == line + Erased(more);
  }

  /** A line whose first nine characters are a label behind leading blanks. */
  predicate Misaligned(line: string) {
    line != "" && IsSpace(line[0]) && IsLabel(Strip(Head(line)))
  }

  lemma StripStarts(s: string)
    ensures s != "" && !IsSpace(s[0]) ==> Strip(s) <= s
    ensures Strip(s) != "" ==> !IsSpace(Strip(s)[0])
  {
    if s != "" && !IsSpace(s[0]) {
      assert LStrip(s) == s;
    }
    var l := LStrip(s);
    assert RStrip(l) <= l;
  }

  lemma LabelsPlain(s: string)
    requires IsLabel(s)
    ensures s != "" && ESC !in s
  {
    var l: Label :| Name(l) == s;
    match l
    case Request => assert forall i :: 0 <= i < 7 ==> "REQUEST"[i] != ESC;
    case Now => assert forall i :: 0 <= i < 3 ==> "NOW"[i] != ESC;
    case Ask => assert forall i :: 0 <= i < 3 ==> "ASK"[i] != ESC;
    case Command => assert forall i :: 0 <= i < 7 ==> "COMMAND"[i] != ESC;
    case Detail => assert forall i :: 0 <= i < 6 ==> "DETAIL"[i] != ESC;
  }

  lemma ErasedLabeled(name: string, after: string, tail: string, color: string, more: string)
    requires ESC !in name && ESC !in after && ESC !in tail && IsColor(color)
    ensures Erased(CYAN + name + RESET + after + Paint(tail, color) + more) == name + after + tail + Erased(more)
  {
    hide Erased, IsColor, IsSequence, Paint;
    var painted := Paint(tail, color);
    assert CYAN + name + RESET + after + painted + more == CYAN + name + RESET + (after + (painted + more));
    ErasedTitle(name, after + (painted + more));
    ErasedPlain(after, painted + more);
    ErasedPaint(tail, color, more);
    assert name + (after + (tail + Erased(more))) == name + after + tail + Erased(more);
  }

  /** What a terminal shows of a styled line. */
  function Shown(line: string): string {
    var head, name := Head(line), Strip(Head(line));
    if !("PALAVER" <= line) && IsLabel(name) then name + head[Min(|name|, |head|)..] + Tail(line) else line
  }

  lemma StyledShows(line: string, color: string, more: string)
    requires ESC !in line && IsColor(color)
    ensures Erased(Styled(line, color) + more) == Shown(line) + Erased(more)
  {
    hide Erased, Strip, IsLabel, IsColor, Paint, StyledHeader;
    var head, tail := Head(line), Tail(line);
    assert line == head + tail;
    assert (forall i :: 0 <= i < |head| ==> head[i] in line) && forall i :: 0 <= i < |tail| ==> tail[i] in line;
    if "PALAVER" <= line {
      ErasedHeader(line, more);
    } else if IsLabel(Strip(head)) {
      var name := Strip(head);
      LabelsPlain(name);
      var after := head[Min(|name|, |head|)..];
      assert forall i :: 0 <= i < |after| ==> after[i] in head;
      ErasedLabeled(name, after, tail, color, more);
    } else if Strip(head) != "" {
      ErasedPaint(line, color, more);
    } else {
      assert head + Paint(tail, color) + more == head + (Paint(tail, color) + more);
      ErasedPlain(head, Paint(tail, color) + more);
      ErasedPaint(tail, color, more);
      assert head + (tail + Erased(more)) == line + Erased(more);
    }
  }

  lemma ShownExactly(line: string)
    ensures Shown(line) == line <==> !Misaligned(line)
  {
    hide Strip, IsLabel;
    var head, name := Head(line), Strip(Head(line));
    assert line == head + Tail(line);
    if "PALAVER" <= line {
      assert line[0] == 'P';
    } else if IsLabel(name) {
      LabelsPlain(name);
      StripStarts(head);
      if head == "" {
        StripEmpty();
      } else if !IsSpace(head[0]) {
        assert name + head[|name|..] == head;
      } else {
        assert Shown(line)[0] == name[0];
      }
    }
  }

  /** Styling adds nothing but colour sequences, exactly when the line is not a label behind leading
      blanks: there the label would be painted over the blanks and part of it shown twice. */
  lemma StylingIsInvisibleExactly(line: string, color: string)
    requires ESC !in line && IsColor(color)
    ensures Erased(Styled(line, color)) == line <==> !Misaligned(line)
  {
    hide Erased, Styled, Shown, Misaligned, IsColor;
    StyledShows(line, color, "");
    ShownExactly(line);
    PlainIsErased("");
    assert Styled(line, color) + "" == Styled(line, color) && Shown(line) + "" == Shown(line);
  }

  lemma StripEmpty()
    ensures Strip("") == ""
  {
  }

  // ----- Encoding a frame -----

  datatype Line = Line(text: string, color: string)

  function Spaces(n: int): (s: string)
    ensures |s| == if n > 0 then n else 0
    ensures forall i :: 0 <= i < |s| ==> s[i] == ' '
  {
    seq(if n > 0 then n else 0, i => ' ')
  }

  function AtLeastOne(n: int): (m: nat)
    ensures m >= 1 && (n >= 1 ==> m == n)
  {
    if n < 1 then 1 else n
  }

  /** One encoded row: the line clipped, styled and padded. */
  function Row(t: Tables, line: Line, width: nat): string {
    var clipped := Clipped(t, Layout(t, line.text), width);
    Styled(clipped, line.color) + Spaces(width - CellWidth(t, clipped))
  }

  function LineAt(lines: seq<Line>, i: nat): Line {
    if i < |lines| then lines[i] else Line("", "")
  }

  function FrameRows(t: Tables, lines: seq<Line>, width: int, height: int): (rows: seq<string>)
    ensures |rows| == AtLeastOne(height)
  {
    seq(AtLeastOne(height), i requires 0 <= i < AtLeastOne(height) => Row(t, LineAt(lines, i), AtLeastOne(width)))
  }

  /** `_encode_frame`, before the final UTF-8 encoding. */
  method EncodeFrame(t: Tables, lines: seq<Line>, width: int, height: int) returns (frame: string)
    ensures frame == HOME + Join(FrameRows(t, lines, width, height), "\r\n") + RESET
  {
    hide Clipped, Layout, Styled, CellWidth, Join;
    var w, h := AtLeastOne(width), AtLeastOne(height);
    var visible := lines[..Min(h, |lines|)];
    while |visible| < h
      invariant |visible| <= h && forall i :: 0 <= i < |visible| ==> visible[i] == LineAt(lines, i)
      invariant |visible| >= Min(h, |lines|)
    {
      visible := visible + [Line("", "")];
    }
    var padded := [];
    for i := 0 to |visible|
      invariant |padded| == i && forall j :: 0 <= j < i ==> padded[j] == Row(t, LineAt(lines, j), w)
    {
      var clipped := Clipped(t, Layout(t, visible[i].text), w);
      padded := padded + [Styled(clipped, visible[i].color) + Spaces(w - CellWidth(t, clipped))];
    }
    assert padded == FrameRows(t, lines, width, height);
    frame := HOME + Join(padded, "\r\n") + RESET;
  }

  predicate Smooth(s: string) {
    forall i :: 0 <= i < |s| ==> s[i] >= ' '
  }

  lemma LayoutSmooth(t: Tables, s: string)
    requires Known(t)
    ensures Smooth(Layout(t, s))
  {
    hide Erased;
  }

  lemma {:induction false} SpacesCells(t: Tables, s: string)
    requires Known(t) && forall i :: 0 <= i < |s| ==> s[i] == ' '
    ensures CellWidth(t, s) == |s|
  {
    if s != "" { SpacesCells(t, s[..|s| - 1]); }
  }

  lemma ClippedSmooth(t: Tables, s: string, width: nat)
    requires Known(t) && Smooth(s)
    ensures Smooth(Clipped(t, s, width))
  {
    hide Taken;
    if width > 1 && s != "" {
      TakenShape(t, s, width - 1);
      var (a, b) := Taken(t, s, width - 1);
      if a + b == s { assert forall i :: 0 <= i < |a| ==> a[i] == s[i]; }
    }
  }

  /** What is shown of a row, and that it occupies exactly the pane's width. */
  lemma RowIsExact(t: Tables, line: Line, width: nat)
    requires Known(t) && width >= 1 && IsColor(line.color)
    requires !Misaligned(Clipped(t, Layout(t, line.text), width))
    ensures CellWidth(t, Erased(Row(t, line, width))) == width
    ensures Erased(Row(t, line, width)) == Clipped(t, Layout(t, line.text), width)
            + Spaces(width - CellWidth(t, Clipped(t, Layout(t, line.text), width)))
  {
    hide CellWidth, Clipped, Layout, Misaligned, Styled, Shown, Erased, IsColor;
    var text := Layout(t, line.text);
    var clipped := Clipped(t, text, width);
    LayoutSmooth(t, line.text);
    ClippedSmooth(t, text, width);
    SmoothIsPlain(clipped);
    ClippedFits(t, text, width);
    var pad := Spaces(width - CellWidth(t, clipped));
    SmoothIsPlain(pad);
    StyledShows(clipped, line.color, pad);
    ShownExactly(clipped);
    PlainIsErased(pad);
    CellsAdd(t, clipped, pad);
    SpacesCells(t, pad);
  }

  lemma SmoothIsPlain(s: string)
    requires Smooth(s)
    ensures ESC !in s
  {
  }

  // ----- The sections -----

  /** Each section's values in reading order, with their colours. */
  datatype Sections = Sections(request: seq<Line>, now: seq<Line>, ask: seq<Line>, command: seq<Line>,
                               detail: seq<Line>) {
    function Of(section: Label): seq<Line> {
      match section
      case Request => request
      case Now => now
      case Ask => ask
      case Command => command
      case Detail => detail
    }

    function Lengths(): Counts {
      Counts(|request|, |now|, |ask|, |command|, |detail|)
    }
  }

  predicate Colored(s: Sections) {
    forall l: Label, i :: 0 <= i < |s.Of(l)| ==> IsColor(s.Of(l)[i].color)
  }

  function Gutter(width: int): nat {
    Min(LABEL_WIDTH, AtLeastOne(width))
  }

  /** `label.ljust(gutter)`, or a blank gutter below the section's first row. */
  function Margin(section: Label, index: nat, gutter: nat): string {
    if index == 0 then Name(section) + Spaces(gutter - |Name(section)|) else Spaces(gutter)
  }

  /** One content row; the last visible row of a shortened REQUEST or NOW ends in an ellipsis. */
  function ContentLine(t: Tables, section: Label, values: seq<Line>, count: nat, width: int, index: nat): Line
    requires index < |values|
  {
    var room := width - Gutter(width);
    var margin, value := Margin(section, index, Gutter(width)), values[index];
    if room <= 0 then Line(margin, "")
    else
      var omitted := (section == Request || section == Now) && count < |values| && index + 1 == count;
      Line(margin + ClipCells(t, if omitted then value.text + [ELLIPSIS] else value.text, room), value.color)
  }

  function SectionLines(t: Tables, section: Label, values: seq<Line>, count: nat, width: int): (lines: seq<Line>)
    ensures |lines| == Min(count, |values|)
  {
    seq(Min(count, |values|),
        i requires 0 <= i < Min(count, |values|) => ContentLine(t, section, values, count, width, i))
  }

  function LinesOf(t: Tables, s: Sections, counts: Counts, width: int, labels: seq<Label>): seq<Line> {
    if labels == [] then []
    else
      var last := labels[|labels| - 1];
      LinesOf(t, s, counts, width, labels[..|labels| - 1]) + SectionLines(t, last, s.Of(last), counts.Of(last), width)
  }

  const DISPLAY_ORDER := [Request, Now, Ask, Command, Detail]

  function Content(t: Tables, s: Sections, width: int, rows: int): seq<Line> {
    LinesOf(t, s, Allocated(s.Lengths(), rows), width, DISPLAY_ORDER)
  }

  /** `_content_lines`. */
  method ContentLines(t: Tables, s: Sections, width: int, rows: int) returns (lines: seq<Line>)
    ensures lines == Content(t, s, width, rows)
  {
    hide ContentLine, Allocated;
    var counts := AllocateRows(s.Lengths(), rows);
    lines := [];
    for i := 0 to |DISPLAY_ORDER|
      invariant lines == LinesOf(t, s, counts, width, DISPLAY_ORDER[..i])
    {
      var section := DISPLAY_ORDER[i];
      var values, count := s.Of(section), counts.Of(section);
      ghost var before := lines;
      for index := 0 to Min(count, |values|)
        invariant lines == before + SectionLines(t, section, values, count, width)[..index]
      {
        lines := lines + [ContentLine(t, section, values, count, width, index)];
      }
      assert DISPLAY_ORDER[..i + 1][..i] == DISPLAY_ORDER[..i];
    }
    assert DISPLAY_ORDER[..|DISPLAY_ORDER|] == DISPLAY_ORDER;
  }

  // ----- Every rendered row is exact -----

  lemma {:induction false} StripBlank(s: string)
    requires forall i :: 0 <= i < |s| ==> s[i] == ' '
    ensures Strip(s) == ""
  {
    LStripBlank(s);
  }

  lemma {:induction false} LStripBlank(s: string)
    requires forall i :: 0 <= i < |s| ==> s[i] == ' '
    ensures LStrip(s) == ""
  {
    if s != "" { LStripBlank(s[1..]); }
  }

  /** A row that starts with a visible character stays aligned under clipping. */
  lemma VisibleStartAligned(t: Tables, text: string, width: nat)
    requires Known(t) && width >= 1 && text != "" && !IsSpace(text[0]) && !t.control(text[0]) && text[0] != ESC
    ensures !Misaligned(Clipped(t, Layout(t, text), width))
  {
    hide Strip, IsLabel, Taken, CellWidth;
    assert Erased(text)[0] == text[0];
    var u := Layout(t, text);
    assert u != "" && u[0] == text[0];
    if width > 1 {
      TakenShape(t, u, width - 1);
      var (a, b) := Taken(t, u, width - 1);
      if a + b == u { assert a[0] == u[0]; }
    }
  }

  lemma BlankHeadAligned(u: string)
    requires forall i :: 0 <= i < |u| && i < LABEL_WIDTH ==> u[i] == ' '
    ensures !Misaligned(u)
  {
    hide Strip;
    StripBlank(Head(u));
    assert forall l: Label :: Name(l) != "";
  }

  /** A row below its section's first stays aligned under clipping. */
  lemma BlankMarginAligned(t: Tables, after: string, width: int)
    requires Known(t) && (width <= LABEL_WIDTH ==> after == "")
    ensures !Misaligned(Clipped(t, Layout(t, Spaces(Gutter(width)) + after), AtLeastOne(width)))
  {
    hide Strip, IsLabel, Taken, CellWidth, Erased, Misaligned;
    var margin, w := Spaces(Gutter(width)), AtLeastOne(width);
    ErasedPlain(margin, after);
    var u := Layout(t, margin + after);
    assert forall i :: 0 <= i < |margin| ==> u[i] == ' ';
    SpacesCells(t, u[..|margin|]);
    if after == "" {
      PlainIsErased("");
      assert u[..|margin|] == u;
    } else {
      if CellWidth(t, u) > w { TakenCovers(t, u, w - 1, LABEL_WIDTH); }
    }
    BlankHeadAligned(Clipped(t, u, w));
  }

  lemma ContentLineAligned(t: Tables, section: Label, values: seq<Line>, count: nat, width: int, index: nat)
    requires Known(t) && index < |values| && IsColor(values[index].color)
    ensures var line := ContentLine(t, section, values, count, width, index);
            IsColor(line.color) && !Misaligned(Clipped(t, Layout(t, line.text), AtLeastOne(width)))
  {
    hide Misaligned, Clipped, Layout, ClipCells, Spaces;
    var line := ContentLine(t, section, values, count, width, index);
    if index == 0 {
      LabelStarts(section);
      assert line.text[0] == Name(section)[0];
      VisibleStartAligned(t, line.text, AtLeastOne(width));
    } else {
      var margin := Spaces(Gutter(width));
      assert margin + line.text[|margin|..] == line.text;
      BlankMarginAligned(t, line.text[|margin|..], width);
    }
  }

  lemma LabelStarts(section: Label)
    ensures Name(section) != "" && IsPrintableAscii(Name(section)[0]) && !IsSpace(Name(section)[0])
            && Name(section)[0] != ESC
  {
  }

  predicate Aligned(t: Tables, line: Line, width: int) {
    IsColor(line.color) && !Misaligned(Clipped(t, Layout(t, line.text), AtLeastOne(width)))
  }

  predicate AllAligned(t: Tables, lines: seq<Line>, width: int) {
    forall i :: 0 <= i < |lines| ==> Aligned(t, lines[i], width)
  }

  lemma SectionAligned(t: Tables, section: Label, values: seq<Line>, count: nat, width: int)
    requires Known(t) && forall i :: 0 <= i < |values| ==> IsColor(values[i].color)
    ensures AllAligned(t, SectionLines(t, section, values, count, width), width)
  {
    hide ContentLine, Clipped, Layout, Misaligned, IsColor;
    forall i | 0 <= i < Min(count, |values|)
      ensures Aligned(t, ContentLine(t, section, values, count, width, i), width)
    {
      ContentLineAligned(t, section, values, count, width, i);
    }
  }

  lemma {:induction false} LinesAligned(t: Tables, s: Sections, counts: Counts, width: int, labels: seq<Label>)
    requires Known(t) && Colored(s)
    ensures AllAligned(t, LinesOf(t, s, counts, width, labels), width)
  {
    hide SectionLines, Aligned, IsColor;
    if labels != [] {
      var last := labels[|labels| - 1];
      LinesAligned(t, s, counts, width, labels[..|labels| - 1]);
      SectionAligned(t, last, s.Of(last), counts.Of(last), width);
    }
  }

  lemma LineCount(t: Tables, s: Sections, counts: Counts, width: int)
    requires Within(counts, s.Lengths())
    ensures |LinesOf(t, s, counts, width, DISPLAY_ORDER)| == counts.Sum()
  {
    hide SectionLines, LinesOf;
    var o := DISPLAY_ORDER;
    LinesStep(t, s, counts, width, o);
    assert o[..4] == [Request, Now, Ask, Command];
    LinesStep(t, s, counts, width, o[..4]);
    assert o[..4][..3] == [Request, Now, Ask];
    LinesStep(t, s, counts, width, o[..4][..3]);
    assert o[..4][..3][..2] == [Request, Now];
    LinesStep(t, s, counts, width, o[..4][..3][..2]);
    assert o[..4][..3][..2][..1] == [Request];
    LinesStep(t, s, counts, width, o[..4][..3][..2][..1]);
    NoLines(t, s, counts, width);
  }

  lemma LinesStep(t: Tables, s: Sections, counts: Counts, width: int, labels: seq<Label>)
    requires labels != []
    ensures var last := labels[|labels| - 1];
            |LinesOf(t, s, counts, width, labels)| ==
            |LinesOf(t, s, counts, width, labels[..|labels| - 1])| + Min(counts.Of(last), |s.Of(last)|)
  {
    hide ContentLine;
  }

  lemma NoLines(t: Tables, s: Sections, counts: Counts, width: int)
    ensures LinesOf(t, s, counts, width, []) == []
  {
  }

  /** The header and the content rows of one pane. */
  function PaneLines(t: Tables, header: string, s: Sections, width: int, height: int): seq<Line> {
    [Line(header, "")] + Content(t, s, width, height - 1)
  }

  /** Header and content never exceed the height, so no row is cut off; and whatever the state, the
      width and the height, every row of the frame shows exactly the pane's width. */
  lemma RenderedFrameIsExact(t: Tables, header: string, s: Sections, width: int, height: int)
    requires Known(t) && Colored(s) && "PALAVER" <= header
    ensures |PaneLines(t, header, s, width, height)| <= AtLeastOne(height)
    ensures var rows := FrameRows(t, PaneLines(t, header, s, width, height), width, height);
            |rows| == AtLeastOne(height) && forall i :: 0 <= i < |rows| ==>
                CellWidth(t, Erased(rows[i])) == AtLeastOne(width)
  {
    hide CellWidth, Erased, Row, LinesOf, Allocated, Aligned, Clipped, Layout;
    var lines, w := PaneLines(t, header, s, width, height), AtLeastOne(width);
    var counts := Allocated(s.Lengths(), height - 1);
    NoRowWasted(s.Lengths(), height - 1);
    LineCount(t, s, counts, width);
    LinesAligned(t, s, counts, width, DISPLAY_ORDER);
    forall i | 0 <= i < AtLeastOne(height) ensures CellWidth(t, Erased(Row(t, LineAt(lines, i), w))) == w {
      if i == 0 {
        assert header[0] == "PALAVER"[0] == 'P';
        HeaderAligned(t, header, width);
      } else if i >= |lines| {
        EmptyAligned(t, width);
      } else {
        assert lines[i] == Content(t, s, width, height - 1)[i - 1];
      }
      assert Aligned(t, LineAt(lines, i), width);
      AlignedRow(t, LineAt(lines, i), width);
    }
  }

  lemma AlignedRow(t: Tables, line: Line, width: int)
    requires Known(t) && Aligned(t, line, width)
    ensures CellWidth(t, Erased(Row(t, line, AtLeastOne(width)))) == AtLeastOne(width)
  {
    hide CellWidth, Erased, Row, Clipped, Layout, Misaligned;
    RowIsExact(t, line, AtLeastOne(width));
  }

  lemma HeaderAligned(t: Tables, header: string, width: int)
    requires Known(t) && header != "" && header[0] == 'P'
    ensures Aligned(t, Line(header, ""), width)
  {
    hide Misaligned, Clipped, Layout;
    assert IsPrintableAscii('P');
    VisibleStartAligned(t, header, AtLeastOne(width));
  }

  lemma EmptyAligned(t: Tables, width: int)
    ensures Aligned(t, Line("", ""), width)
  {
    hide Strip, IsLabel;
    assert Layout(t, "") == "";
    assert Clipped(t, "", AtLeastOne(width)) == "";
  }

  /** No row contains a line break, so the frame splits back into its rows. */
  lemma RowsAreLines(t: Tables, line: Line, width: nat)
    requires Known(t) && width >= 1 && IsColor(line.color)
    ensures forall i :: 0 <= i < |Row(t, line, width)| ==>
              Row(t, line, width)[i] != '\r' && Row(t, line, width)[i] != '\n'
  {
    hide CellWidth, Clipped, Layout, Styled, IsColor;
    var clipped := Clipped(t, Layout(t, line.text), width);
    LayoutSmooth(t, line.text);
    ClippedSmooth(t, Layout(t, line.text), width);
    StyledUnbroken(clipped, line.color);
  }

  predicate Unbroken(s: string) {
    forall i :: 0 <= i < |s| ==> s[i] != '\r' && s[i] != '\n'
  }

  lemma UnbrokenAdd(a: string, b: string)
    requires Unbroken(a) && Unbroken(b)
    ensures Unbroken(a + b)
  {
  }

  lemma UnbrokenPart(s: string, i: nat, j: nat)
    requires Unbroken(s) && i <= j <= |s|
    ensures Unbroken(s[i..j])
  {
  }

  lemma PaintUnbroken(value: string, color: string)
    requires Unbroken(value) && IsColor(color)
    ensures Unbroken(Paint(value, color))
  {
    hide Strip;
    SequencesUnbroken();
  }

  lemma RestUnbroken(rest: string)
    requires Unbroken(rest)
    ensures Unbroken(ColoredRest(rest))
  {
    hide StatusColor, Blanks, WordLength, IsSequence, Unbroken;
    var n := Blanks(rest);
    var m := n + WordLength(rest[n..]);
    var color := if 0 < n < m then StatusColor(rest[n..m]) else None;
    if color.Some? {
      SequencesUnbroken();
      PaintedUnbroken(color.value);
      UnbrokenPart(rest, 0, n);
      UnbrokenPart(rest, n, m);
      UnbrokenPart(rest, m, |rest|);
      assert rest[0..n] == rest[..n] && rest[m..|rest|] == rest[m..];
      UnbrokenAdd(rest[..n], color.value);
      UnbrokenAdd(rest[..n] + color.value, rest[n..m]);
      UnbrokenAdd(rest[..n] + color.value + rest[n..m], RESET);
      UnbrokenAdd(rest[..n] + color.value + rest[n..m] + RESET, rest[m..]);
    }
  }

  lemma PaintedUnbroken(c: string)
    requires IsSequence(c)
    ensures Unbroken(c)
  {
    SequencesUnbroken();
  }

  lemma HeadUnbroken(line: string)
    requires Smooth(line)
    ensures Unbroken(line) && Unbroken(Tail(line)) && Unbroken(Head(line)) && Unbroken(Strip(Head(line)))
    ensures "PALAVER" <= line ==> Unbroken(line[7..])
    ensures var name := Strip(Head(line)); Unbroken(Head(line)[Min(|name|, |Head(line)|)..])
  {
    hide Strip;
    StripWithin(Head(line));
  }

  lemma StyledUnbroken(line: string, color: string)
    requires Smooth(line) && IsColor(color)
    ensures Unbroken(Styled(line, color))
  {
    hide Strip, IsLabel, ColoredRest, Paint, IsColor, Unbroken, Smooth;
    SequencesUnbroken();
    HeadUnbroken(line);
    var head, tail := Head(line), Tail(line);
    PaintUnbroken(line, color);
    PaintUnbroken(tail, color);
    var name := Strip(head);
    if "PALAVER" <= line {
      RestUnbroken(line[7..]);
      UnbrokenAdd(CYAN, "PALAVER");
      UnbrokenAdd(CYAN + "PALAVER", RESET);
      UnbrokenAdd(CYAN + "PALAVER" + RESET, ColoredRest(line[7..]));
    } else if IsLabel(name) {
      var after := head[Min(|name|, |head|)..];
      UnbrokenAdd(CYAN, name);
      UnbrokenAdd(CYAN + name, RESET);
      UnbrokenAdd(CYAN + name + RESET, after);
      UnbrokenAdd(CYAN + name + RESET + after, Paint(tail, color));
    } else {
      UnbrokenAdd(head, Paint(tail, color));
    }
  }

  lemma SequencesUnbroken()
    ensures Unbroken(CYAN) && Unbroken(GREEN) && Unbroken(AMBER) && Unbroken(MUTED) && Unbroken(RED) && Unbroken(RESET)
            && Unbroken("PALAVER")
  {
  }

  lemma {:induction false} StripWithin(s: string)
    ensures forall i :: 0 <= i < |Strip(s)| ==> Strip(s)[i] in s
  {
    LStripWithin(s);
    var l := LStrip(s);
    assert RStrip(l) <= l;
    forall i | 0 <= i < |Strip(s)| ensures Strip(s)[i] in s {
      assert Strip(s)[i] == l[i];
    }
  }

  lemma {:induction false} LStripWithin(s: string)
    ensures forall i :: 0 <= i < |LStrip(s)| ==> LStrip(s)[i] in s
  {
    if s != "" && IsSpace(s[0]) { LStripWithin(s[1..]); }
  }
}
