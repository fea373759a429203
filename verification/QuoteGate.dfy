/** Grounding a model's quote in a stored chunk and deciding its tier (`extract/quote_gate.py`),
    and what a tier-1 verdict implies about the record the chunk was rendered from. */
module QuoteGate {
  import opened Text
  import opened Normalize
  import opened Splitting

  const TIER_USER_INSTRUCTION := 1
  const TIER_OBSERVER_INFERENCE := 4

  datatype Channel = Human | Injected | Agent | System | ToolOutput | Untagged

  const PREFIX_LENGTH: nat := 11

  predicate Stamped(line: string) {
    |line| >= PREFIX_LENGTH && line[0] == '[' && line[3] == ':' && line[6] == ':' && line[9..11] == "] "
  }

  function StripTimestamp(line: string): string {
    if Stamped(line) then line[PREFIX_LENGTH..] else line
  }

  function BodyChannel(body: string): Channel {
    if HUMAN_TAG <= body then Human
    else if INJECTED_TAG <= body then Injected
    else if AGENT_TAG <= body then Agent
    else if SYSTEM_TAG <= body then System
    else if TOOL_MARK <= body || RESULT_MARK <= body || ERROR_MARK <= body then ToolOutput
    else Untagged
  }

  /** `_line_channel`. */
  function LineChannel(line: string): Channel {
    BodyChannel(StripTimestamp(line))
  }

  /** The index of the first newline at or after `i`, or the end. */
  function LineEnd(s: string, i: nat): (j: nat)
    requires i <= |s|
    ensures i <= j <= |s|
    ensures '\n' !in s[i..j]
    ensures j < |s| ==> s[j] == '\n'
    decreases |s| - i
  {
    if i < |s| && s[i] != '\n' then
      var j := LineEnd(s, i + 1);
      assert s[i..j] == [s[i]] + s[i + 1..j];
      j
    else i
  }

  function LineAt(s: string, i: nat): string
    requires i <= |s|
  {
    s[i..LineEnd(s, i)]
  }

  /** `_chunk_channel`: the first line speaks for the whole chunk. */
  function ChunkChannel(content: string): Channel {
    LineChannel(LineAt(content, 0))
  }

  /** The first line at or after `i`, itself a line start, that looks like tool output. */
  function ToolOutputFrom(content: string, i: nat): (start: Option<nat>)
    requires i <= |content|
    ensures start.Some? ==> i <= start.value <= |content|
    decreases |content| - i
  {
    if LineChannel(LineAt(content, i)) == ToolOutput then Some(i)
    else
      var j := LineEnd(content, i);
      if j < |content| then ToolOutputFrom(content, j + 1) else None
  }

  /** `_tool_output_starts_at`, as the loop the source runs. */
  method ToolOutputStartsAt(content: string) returns (start: Option<nat>)
    ensures start == ToolOutputFrom(content, 0)
  {
    hide LineChannel;
    var offset := 0;
    while true
      invariant offset <= |content| && ToolOutputFrom(content, 0) == ToolOutputFrom(content, offset)
      decreases |content| - offset
    {
      var end := LineEnd(content, offset);
      if LineChannel(content[offset..end]) == ToolOutput {
        return Some(offset);
      }
      if end == |content| {
        return None;
      }
      offset := end + 1;
    }
  }

  predicate EdgePunctuation(c: char) {
    IsEdgeAscii(c) || (c as int) in {0x201c, 0x201d, 0x2018, 0x2019, 0xab, 0xbb, 0x201e, 0x2026, 0x2013, 0x2014}
  }

  predicate IsEdgeAscii(c: char) {
    c in " \t\n\"'`.,;:!?()[]{}<>*_~-"
  }

  function StripEdges(s: string): string
    decreases |s|
  {
    if s == "" then ""
    else if EdgePunctuation(s[0]) then StripEdges(s[1..])
    else if EdgePunctuation(s[|s| - 1]) then StripEdges(s[..|s| - 1])
    else s
  }

  /** `normalize_for_comparison`. */
  function NormalizeForComparison(text: string): string {
    StripEdges(Join(Words(text), " "))
  }

  /** `_statement_is_the_span`. */
  predicate StatementIsTheSpan(statement: string, span: string) {
    NormalizeForComparison(statement) != "" && NormalizeForComparison(statement) == NormalizeForComparison(span)
  }

  predicate OccursAt(content: string, quote: string, k: int) {
    0 <= k && k + |quote| <= |content| && content[k..k + |quote|] == quote
  }

  /** `content.find(quote, lo, hi)`. */
  function Find(content: string, quote: string, lo: nat, hi: nat): (k: Option<nat>)
    requires lo <= hi <= |content|
    ensures k.Some? ==> lo <= k.value && k.value + |quote| <= hi && OccursAt(content, quote, k.value)
    ensures k.Some? ==> forall j :: lo <= j < k.value ==> !OccursAt(content, quote, j)
    ensures k.None? ==> forall j :: lo <= j && j + |quote| <= hi ==> !OccursAt(content, quote, j)
    decreases hi - lo
  {
    if lo + |quote| > hi then None
    else if OccursAt(content, quote, lo) then Some(lo)
    else if lo == hi then None
    else Find(content, quote, lo + 1, hi)
  }

  datatype Rejection = EmptyQuote | NoSuchChunk | BadSpan | QuoteAbsent
  datatype Grounding = Rejected(why: Rejection) | Grounded(start: nat, end: nat, tier: int, channel: Channel)

  function TierOf(content: string, statement: string, start: nat, end: nat): int
    requires start <= end <= |content|
  {
    var tool := ToolOutputFrom(content, 0);
    if ChunkChannel(content) != Human then TIER_OBSERVER_INFERENCE
    else if tool.Some? && end > tool.value then TIER_OBSERVER_INFERENCE
    else if !StatementIsTheSpan(statement, content[start..end]) then TIER_OBSERVER_INFERENCE
    else TIER_USER_INSTRUCTION
  }

  /** `ground_quote`, on the content of the cited chunk. */
  function GroundQuote(chunk: Option<string>, quote: string, statement: string,
                       cited: Option<(int, int)>): (g: Grounding)
    ensures g.Grounded? ==> chunk.Some? && g.start < g.end <= |chunk.value| && chunk.value[g.start..g.end] == quote
    ensures g.Grounded? && cited.Some? ==> cited.value.0 <= g.start && g.end <= cited.value.1
  {
    if Strip(quote) == "" then Rejected(EmptyQuote)
    else if chunk.None? then Rejected(NoSuchChunk)
    else
      var content := chunk.value;
      var span := cited.GetOr((0, |content|));
      if !(0 <= span.0 < span.1 <= |content|) then Rejected(BadSpan)
      else
        var found := Find(content, quote, span.0, span.1);
        if found.None? then Rejected(QuoteAbsent)
        else
          var start, end := found.value, found.value + |quote|;
          Grounded(start, end, TierOf(content, statement, start, end), ChunkChannel(content))
  }

  /** A quote is rejected exactly when there is nothing checkable behind it. */
  lemma RejectedExactly(chunk: Option<string>, quote: string, statement: string, cited: Option<(int, int)>)
    ensures GroundQuote(chunk, quote, statement, cited).Rejected? <==>
            || Strip(quote) == "" || chunk.None?
            || (var span := cited.GetOr((0, |chunk.value|));
                || !(0 <= span.0 < span.1 <= |chunk.value|)
                || forall k :: span.0 <= k && k + |quote| <= span.1 ==> !OccursAt(chunk.value, quote, k))
  {
    if chunk.Some? {
      var span := cited.GetOr((0, |chunk.value|));
      if 0 <= span.0 < span.1 <= |chunk.value| {
        var found := Find(chunk.value, quote, span.0, span.1);
        if found.Some? { assert OccursAt(chunk.value, quote, found.value); }
      }
    }
  }

  lemma TierIsOneOrFour(content: string, statement: string, start: nat, end: nat)
    requires start <= end <= |content|
    ensures TierOf(content, statement, start, end) in {TIER_USER_INSTRUCTION, TIER_OBSERVER_INFERENCE}
  {
  }

  // ----- Reading the tags back -----

  /** A timestamp prefix that the tag reader recognizes. */
  predicate CleanPrefix(prefix: string) {
    prefix == "" || (|prefix| == PREFIX_LENGTH && prefix[3] == ':' && prefix[6] == ':' && '\n' !in prefix)
  }

  predicate IsPrefix(prefix: string) {
    prefix == "" || (|prefix| == PREFIX_LENGTH && prefix[0] == '[' && prefix[9..] == "] ")
  }

  lemma TimestampIsPrefix(ts: Option<string>)
    ensures IsPrefix(TimestampPrefix(ts))
  {
  }

  lemma {:induction false} LineEndSkips(s: string, i: nat, k: nat)
    requires i <= k <= |s| && '\n' !in s[i..k]
    ensures LineEnd(s, i) >= k && LineEnd(s, i) == LineEnd(s, k)
    decreases k - i
  {
    if i < k {
      assert s[i] in s[i..k];
      assert s[i + 1..k] == s[i..k][1..];
      LineEndSkips(s, i + 1, k);
    }
  }

  /** The line at `i`, when the text there starts with a newline-free `head`. */
  lemma LineStarts(s: string, i: nat, head: string)
    requires i + |head| <= |s| && s[i..i + |head|] == head && '\n' !in head
    ensures head <= LineAt(s, i)
    ensures LineAt(s, i) == head + LineAt(s, i + |head|)
  {
    LineEndSkips(s, i, i + |head|);
    var j := LineEnd(s, i);
    assert s[i..j] == s[i..i + |head|] + s[i + |head|..j];
  }

  /** A line rendered with a recognizable prefix is read by the tag that follows it. */
  lemma TagRead(s: string, i: nat, prefix: string, tag: string)
    requires IsPrefix(prefix) && '\n' !in tag && tag != "" && tag[0] != '['
    requires i + |prefix| + |tag| <= |s| && s[i..i + |prefix| + |tag|] == prefix + tag
    requires CleanPrefix(prefix)
    ensures StripTimestamp(LineAt(s, i)) == LineAt(s, i + |prefix|)
    ensures tag <= LineAt(s, i + |prefix|)
  {
    var whole := prefix + tag;
    assert s[i + |prefix|..i + |prefix| + |tag|] == whole[|prefix|..] == tag;
    assert s[i..i + |prefix|] == whole[..|prefix|] == prefix;
    LineStarts(s, i + |prefix|, tag);
    LineStarts(s, i, prefix);
    var line := LineAt(s, i);
    if prefix == "" {
      assert line == LineAt(s, i);
      assert line[0] == tag[0];
    } else {
      assert line[..PREFIX_LENGTH] == prefix;
      assert line[9..11] == line[..PREFIX_LENGTH][9..11] == prefix[9..] == "] ";
      assert line[3] == prefix[3] && line[6] == prefix[6] && line[0] == prefix[0];
      assert Stamped(line);
      assert line[PREFIX_LENGTH..] == LineAt(s, i + |prefix|);
    }
  }

  /** A line ends no later than any line break behind its start. */
  lemma LineEndsByBreak(s: string, from: nat, k: nat)
    requires from <= k < |s| && s[k] == '\n'
    ensures LineEnd(s, from) <= k
  {
    var j := LineEnd(s, from);
    assert forall x :: from <= x < j ==> s[x] in s[from..j];
  }

  /** A line rendered with any other timestamp is read as no tag at all. */
  lemma OddTimestampRead(s: string, i: nat, prefix: string)
    requires IsPrefix(prefix) && !CleanPrefix(prefix)
    requires i + |prefix| <= |s| && s[i..i + |prefix|] == prefix
    ensures LineChannel(LineAt(s, i)) == Untagged
  {
    var line := LineAt(s, i);
    if '\n' in prefix {
      var k :| 0 <= k < |prefix| && prefix[k] == '\n';
      assert s[i + k] == '\n';
      LineEndsByBreak(s, i, i + k);
      assert |line| < PREFIX_LENGTH;
      assert s[i] == prefix[0];
      if line != "" { assert line[0] == s[i] == '['; }
    } else {
      LineStarts(s, i, prefix);
      assert line[3] == prefix[3] && line[6] == prefix[6] && line[0] == prefix[0];
    }
    assert StripTimestamp(line) == line;
    assert line == "" || line[0] == '[';
  }

  // ----- The first line of a chunk -----

  predicate SpeaksForHuman(r: Record) {
    && r.UserRecord? && r.human && CleanPrefix(TimestampPrefix(r.timestamp))
    && exists k :: 0 <= k < |r.texts| && Strip(r.texts[k]) != ""
  }

  lemma {:induction false} TextLinesFirst(prefix: string, tag: string, texts: seq<string>)
    ensures TextLines(prefix, tag, texts) == [] <==> forall k :: 0 <= k < |texts| ==> Strip(texts[k]) == ""
    ensures forall k :: 0 <= k < |TextLines(prefix, tag, texts)| ==> prefix + tag <= TextLines(prefix, tag, texts)[k]
  {
    hide Clip, Strip;
    if texts != [] { TextLinesFirst(prefix, tag, texts[..|texts| - 1]); }
  }

  lemma {:induction false} ResultLinesFirst(prefix: string, results: seq<ToolText>)
    ensures forall k :: 0 <= k < |ResultLines(prefix, results)| ==>
              prefix + RESULT_MARK <= ResultLines(prefix, results)[k]
                || prefix + ERROR_MARK <= ResultLines(prefix, results)[k]
  {
    hide Clip, Strip;
    if results != [] { ResultLinesFirst(prefix, results[..|results| - 1]); }
  }

  lemma {:induction false} CallLinesFirst(prefix: string, calls: seq<string>)
    ensures forall k :: 0 <= k < |CallLines(prefix, calls)| ==> prefix + TOOL_MARK <= CallLines(prefix, calls)[k]
  {
    if calls != [] { CallLinesFirst(prefix, calls[..|calls| - 1]); }
  }

  predicate IsTag(tag: string) {
    || tag == HUMAN_TAG || tag == INJECTED_TAG || tag == AGENT_TAG || tag == SYSTEM_TAG
    || tag == TOOL_MARK || tag == RESULT_MARK || tag == ERROR_MARK
  }

  lemma TagShape(tag: string)
    requires IsTag(tag)
    ensures |tag| >= 3 && '\n' !in tag && tag[0] != '['
  {
  }

  lemma SameTag(tag: string, body: string)
    requires IsTag(tag) && tag <= body
    ensures BodyChannel(body) == BodyChannel(tag)
  {
    TagShape(tag);
    assert body[0] == tag[0];
    assert body[1] == tag[1];
    assert body[2] == tag[2];
  }

  /** How a rendered line that starts with `prefix + tag` is read, wherever it stands in a chunk. */
  lemma RenderedRead(content: string, i: nat, line: string, prefix: string, tag: string)
    requires i + |line| <= |content| && content[i..i + |line|] == line
    requires prefix + tag <= line && IsPrefix(prefix) && IsTag(tag)
    ensures LineChannel(LineAt(content, i)) == if CleanPrefix(prefix) then BodyChannel(tag) else Untagged
  {
    hide IsTag, BodyChannel, StripTimestamp, LineAt, IsPrefix, CleanPrefix;
    TagShape(tag);
    var whole := prefix + tag;
    assert content[i..i + |whole|] == line[..|whole|] == whole;
    assert content[i..i + |prefix|] == content[i..i + |whole|][..|prefix|];
    assert whole[..|prefix|] == prefix;
    if CleanPrefix(prefix) {
      TagRead(content, i, prefix, tag);
      SameTag(tag, LineAt(content, i + |prefix|));
    } else {
      OddTimestampRead(content, i, prefix);
    }
  }

  // ----- Which records a chunk speaks for -----

  lemma FirstLineRead(lines: seq<string>, prefix: string, tag: string)
    requires lines != [] && prefix + tag <= lines[0] && IsPrefix(prefix) && IsTag(tag)
    ensures ChunkChannel(Terminated(lines)) == if CleanPrefix(prefix) then BodyChannel(tag) else Untagged
  {
    hide BodyChannel, CleanPrefix, IsPrefix, IsTag;
    var content := Terminated(lines);
    assert content[0..|lines[0]|] == lines[0];
    RenderedRead(content, 0, lines[0], prefix, tag);
  }

  lemma TagChannels()
    ensures BodyChannel(HUMAN_TAG) == Human && BodyChannel(INJECTED_TAG) == Injected && BodyChannel(AGENT_TAG) == Agent
    ensures BodyChannel(SYSTEM_TAG) == System
    ensures BodyChannel(TOOL_MARK) == ToolOutput && BodyChannel(RESULT_MARK) == ToolOutput
            && BodyChannel(ERROR_MARK) == ToolOutput
  {
    var h, i, a, s, t := HUMAN_TAG, INJECTED_TAG, AGENT_TAG, SYSTEM_TAG, TOOL_MARK;
    assert h[0] == 'H' && i[0] == 'I' && a[0] == 'A' && s[0] == 'S' && t[0] == ' ';
    assert h <= h && i <= i && a <= a && s <= s && t <= t;
    assert !(h <= i) && !(h <= a) && !(i <= a) && !(h <= s) && !(i <= s) && !(a <= s);
  }

  lemma UserChunks(r: Record)
    requires r.UserRecord?
    ensures ChunkChannel(ChunkOf(r)) == Human <==> SpeaksForHuman(r)
  {
    hide BodyChannel, CleanPrefix, IsPrefix, LineChannel, Terminated, TextLines, ResultLines, TimestampPrefix;
    ChunkTerminated(r);
    TagChannels();
    var prefix, tag := TimestampPrefix(r.timestamp), if r.human then HUMAN_TAG else INJECTED_TAG;
    TimestampIsPrefix(r.timestamp);
    TextLinesFirst(prefix, tag, r.texts);
    ResultLinesFirst(prefix, r.results);
    var t, u := TextLines(prefix, tag, r.texts), ResultLines(prefix, r.results);
    if t != [] {
      FirstLineRead(t + u, prefix, tag);
    } else if u != [] {
      assert t + u == u;
      FirstLineRead(u, prefix, if prefix + RESULT_MARK <= u[0] then RESULT_MARK else ERROR_MARK);
    } else {
      EmptyChunk();
    }
  }

  lemma AssistantChunks(r: Record)
    requires r.AssistantRecord?
    ensures ChunkChannel(ChunkOf(r)) != Human
  {
    hide BodyChannel, CleanPrefix, IsPrefix, LineChannel, Terminated, TextLines, CallLines, TimestampPrefix;
    ChunkTerminated(r);
    TagChannels();
    var prefix := TimestampPrefix(r.timestamp);
    TimestampIsPrefix(r.timestamp);
    TextLinesFirst(prefix, AGENT_TAG, r.texts);
    CallLinesFirst(prefix, r.calls);
    var t, u := TextLines(prefix, AGENT_TAG, r.texts), CallLines(prefix, r.calls);
    if t != [] {
      FirstLineRead(t + u, prefix, AGENT_TAG);
    } else if u != [] {
      assert t + u == u;
      FirstLineRead(u, prefix, TOOL_MARK);
    } else {
      EmptyChunk();
    }
  }

  lemma OtherChunks(r: Record)
    requires r.SystemRecord? || r.OtherRecord?
    ensures ChunkChannel(ChunkOf(r)) != Human
  {
    hide BodyChannel, CleanPrefix, IsPrefix, LineChannel, Terminated, SystemLine, TimestampPrefix;
    ChunkTerminated(r);
    TagChannels();
    EmptyChunk();
    if r.SystemRecord? {
      TimestampIsPrefix(r.timestamp);
      SystemLineStarts(r);
      FirstLineRead([SystemLine(TimestampPrefix(r.timestamp), r.kind, r.text)], TimestampPrefix(r.timestamp),
                    SYSTEM_TAG);
    }
  }

  lemma SystemLineStarts(r: Record)
    requires r.SystemRecord?
    ensures TimestampPrefix(r.timestamp) + SYSTEM_TAG <= SystemLine(TimestampPrefix(r.timestamp), r.kind, r.text)
  {
    hide Strip, Clip, TimestampPrefix;
  }

  /** A stored chunk reads as a human turn exactly when it was rendered from a `user` record that
      was classified human, says something, and carries a timestamp the reader understands. */
  lemma HumanChunksExactly(r: Record)
    ensures ChunkChannel(ChunkOf(r)) == Human <==> SpeaksForHuman(r)
  {
    hide ChunkChannel, ChunkOf, CleanPrefix, TextLines;
    match r
    case UserRecord(_, _, _, _) => UserChunks(r);
    case AssistantRecord(_, _, _) => AssistantChunks(r);
    case _ => OtherChunks(r);
  }

  lemma EmptyChunk()
    ensures Terminated([]) == "" && ChunkChannel("") == Untagged
  {
  }

  // ----- Where tool output starts -----

  /** A scan that has not passed `i`, a line start that looks like tool output, stops by `i`. */
  lemma {:induction false} ScanStopsBy(content: string, from: nat, i: nat)
    requires from <= i <= |content| && (i == 0 || from == i || content[i - 1] == '\n')
    requires LineChannel(LineAt(content, i)) == ToolOutput
    ensures ToolOutputFrom(content, from).Some? && ToolOutputFrom(content, from).value <= i
    decreases i - from
  {
    hide LineChannel;
    if LineChannel(LineAt(content, from)) != ToolOutput {
      var j := LineEnd(content, from);
      LineEndsByBreak(content, from, i - 1);
      ScanStopsBy(content, j + 1, i);
    }
  }

  /** The offset of line `k` of a chunk. */
  function Offset(lines: seq<string>, k: nat): nat
    requires k <= |lines|
  {
    |Terminated(lines[..k])|
  }

  lemma LineInChunk(lines: seq<string>, k: nat)
    requires k < |lines|
    ensures var content, i := Terminated(lines), Offset(lines, k);
            && i + |lines[k]| <= |content| && content[i..i + |lines[k]|] == lines[k]
            && (i == 0 || content[i - 1] == '\n')
  {
    assert lines == lines[..k] + lines[k..];
    TerminatedConcat(lines[..k], lines[k..]);
    var content, i := Terminated(lines), Offset(lines, k);
    assert Terminated(lines[k..]) == lines[k] + "\n" + Terminated(lines[k..][1..]);
    assert content[i..][..|lines[k]|] == lines[k];
    if k > 0 { TerminatedEnds(lines[..k]); }
  }

  lemma {:induction false} TerminatedEnds(lines: seq<string>)
    requires lines != []
    ensures Terminated(lines) != "" && Terminated(lines)[|Terminated(lines)| - 1] == '\n'
  {
    if |lines| > 1 {
      TerminatedEnds(lines[1..]);
    } else {
      assert lines[1..] == [];
    }
  }

  /** The offset of the first tool result of a user record's chunk, if it renders one. */
  function FirstResult(r: Record): Option<nat>
    requires r.UserRecord?
  {
    var prefix := TimestampPrefix(r.timestamp);
    var texts := TextLines(prefix, if r.human then HUMAN_TAG else INJECTED_TAG, r.texts);
    if ResultLines(prefix, r.results) == [] then None else Some(Offset(RenderRecord(r), |texts|))
  }

  /** In a chunk with a readable timestamp the scan never runs past the first real tool result;
      a look-alike line can only stop it earlier. */
  lemma ScanStopsByFirstResult(r: Record)
    requires r.UserRecord? && CleanPrefix(TimestampPrefix(r.timestamp)) && FirstResult(r).Some?
    ensures ToolOutputFrom(ChunkOf(r), 0).Some? && ToolOutputFrom(ChunkOf(r), 0).value <= FirstResult(r).value
  {
    hide BodyChannel, CleanPrefix, IsPrefix, LineChannel, TextLines, ResultLines, ChunkOf, TimestampPrefix, Terminated;
    var prefix := TimestampPrefix(r.timestamp);
    var t, u := TextLines(prefix, if r.human then HUMAN_TAG else INJECTED_TAG, r.texts), ResultLines(prefix, r.results);
    ChunkTerminated(r);
    TimestampIsPrefix(r.timestamp);
    ResultLinesFirst(prefix, r.results);
    LineInChunk(t + u, |t|);
    TagChannels();
    RenderedRead(ChunkOf(r), FirstResult(r).value, (t + u)[|t|], prefix,
                 if prefix + RESULT_MARK <= u[0] then RESULT_MARK else ERROR_MARK);
    ScanStopsBy(ChunkOf(r), 0, FirstResult(r).value);
  }

  // ----- What comparing a statement with its span means -----

  /** What is trimmed is never a letter or a digit. */
  lemma EdgesAreNoLetters(c: char)
    ensures 'a' <= c <= 'z' || 'A' <= c <= 'Z' || '0' <= c <= '9' ==> !EdgePunctuation(c)
  {
  }

  predicate AllEdge(s: string) {
    forall i :: 0 <= i < |s| ==> EdgePunctuation(s[i])
  }

  /** `s` is `core` between edge punctuation, and `core` neither starts nor ends with any. */
  predicate Trimmed(pre: string, core: string, post: string, s: string) {
    && s == pre + core + post && AllEdge(pre) && AllEdge(post)
    && (core != "" ==> !EdgePunctuation(core[0]) && !EdgePunctuation(core[|core| - 1]))
  }

  /** `core` is what is left of the text with its whitespace collapsed and its edges trimmed. */
  ghost predicate IsCore(core: string, text: string) {
    exists pre, post :: Trimmed(pre, core, post, Join(Words(text), " "))
  }

  /** Two texts that are the same, and something, up to whitespace and edge punctuation. */
  ghost predicate SameCore(a: string, b: string) {
    exists core :: core != "" && IsCore(core, a) && IsCore(core, b)
  }

  lemma {:induction false} StripEdgesTrims(s: string) returns (pre: string, post: string)
    ensures Trimmed(pre, StripEdges(s), post, s)
    decreases |s|
  {
    hide EdgePunctuation;
    pre, post := "", "";
    if s != "" {
      if EdgePunctuation(s[0]) {
        pre, post := StripEdgesTrims(s[1..]);
        pre := [s[0]] + pre;
        assert s == [s[0]] + s[1..];
      } else if EdgePunctuation(s[|s| - 1]) {
        pre, post := StripEdgesTrims(s[..|s| - 1]);
        post := post + [s[|s| - 1]];
        assert s == s[..|s| - 1] + [s[|s| - 1]];
      }
    }
  }

  /** A core reaches from the first character that is no edge punctuation to the last. */
  lemma CoreWithin(pre: string, core: string, post: string, s: string, i: nat)
    requires Trimmed(pre, core, post, s) && i < |s| && !EdgePunctuation(s[i])
    ensures |pre| <= i < |pre| + |core|
  {
    hide EdgePunctuation;
    assert forall k :: 0 <= k < |pre| ==> EdgePunctuation(pre[k]) && s[k] == pre[k];
    assert forall k :: 0 <= k < |post| ==> EdgePunctuation(post[k]) && s[|pre| + |core| + k] == post[k];
  }

  lemma OneCore(pre: string, core: string, post: string, pre': string, core': string, post': string, s: string)
    requires Trimmed(pre, core, post, s) && Trimmed(pre', core', post', s)
    ensures core == core'
  {
    hide EdgePunctuation;
    CoreReaches(pre, core, post, pre', core', post', s);
    CoreReaches(pre', core', post', pre, core, post, s);
    assert core == s[|pre|..|pre| + |core|] && core' == s[|pre'|..|pre'| + |core'|];
  }

  lemma CoreReaches(pre: string, core: string, post: string, pre': string, core': string, post': string, s: string)
    requires Trimmed(pre, core, post, s) && Trimmed(pre', core', post', s)
    ensures core != "" ==> |pre'| <= |pre| && |pre| + |core| <= |pre'| + |core'|
  {
    hide EdgePunctuation;
    if core != "" {
      assert s[|pre|] == core[0] && s[|pre| + |core| - 1] == core[|core| - 1];
      CoreWithin(pre', core', post', s, |pre|);
      CoreWithin(pre', core', post', s, |pre| + |core| - 1);
    }
  }

  /** Every text has exactly one core. */
  lemma CoreIsUnique(text: string, core: string)
    ensures IsCore(core, text) <==> core == NormalizeForComparison(text)
  {
    hide Trimmed, StripEdges, Words;
    var s := Join(Words(text), " ");
    var pre, post := StripEdgesTrims(s);
    if IsCore(core, text) {
      var pre', post' :| Trimmed(pre', core, post', s);
      OneCore(pre, NormalizeForComparison(text), post, pre', core, post', s);
    }
  }

  /** The comparison holds exactly between texts with the same core. */
  lemma ComparesCores(statement: string, span: string)
    ensures StatementIsTheSpan(statement, span) <==> SameCore(statement, span)
  {
    hide IsCore, NormalizeForComparison;
    CoreIsUnique(statement, NormalizeForComparison(statement));
    CoreIsUnique(span, NormalizeForComparison(span));
    if SameCore(statement, span) {
      var core :| core != "" && IsCore(core, statement) && IsCore(core, span);
      CoreIsUnique(statement, core);
      CoreIsUnique(span, core);
    }
  }

  /** Begins and ends, whitespace aside, with something other than edge punctuation. */
  predicate BareEdges(text: string) {
    var s := Join(Words(text), " ");
    s != "" && !EdgePunctuation(s[0]) && !EdgePunctuation(s[|s| - 1])
  }

  /** Between texts without edge punctuation, the comparison is that of their words. */
  lemma BareTextsCompareWords(a: string, b: string)
    requires BareEdges(a) && BareEdges(b)
    ensures SameCore(a, b) <==> Words(a) == Words(b)
  {
    hide EdgePunctuation, Words, StripEdges, NormalizeForComparison;
    BareIsCore(a);
    BareIsCore(b);
    CoreIsUnique(a, Join(Words(a), " "));
    CoreIsUnique(b, Join(Words(b), " "));
    if SameCore(a, b) {
      var core :| core != "" && IsCore(core, a) && IsCore(core, b);
      CoreIsUnique(a, core);
      CoreIsUnique(b, core);
      WordsOfJoin(Words(a));
      WordsOfJoin(Words(b));
    }
  }

  lemma BareIsCore(text: string)
    requires BareEdges(text)
    ensures IsCore(Join(Words(text), " "), text)
  {
    var s := Join(Words(text), " ");
    assert Trimmed("", s, "", s);
  }

  // ----- Tier 1 -----

  /** What a tier-1 verdict over a chunk rendered from `r` amounts to. */
  lemma TierOneSound(r: Record, quote: string, statement: string, cited: Option<(int, int)>)
    ensures var content, g := ChunkOf(r), GroundQuote(Some(ChunkOf(r)), quote, statement, cited);
            g.Grounded? && g.tier == TIER_USER_INSTRUCTION ==>
              && r.UserRecord? && r.human
              && content[g.start..g.end] == quote
              && (FirstResult(r).Some? ==> g.end <= FirstResult(r).value)
              && SameCore(statement, quote)
  {
    ComparesCores(statement, quote);
    hide SameCore, LineChannel, NormalizeForComparison, Find, ChunkOf, FirstResult, CleanPrefix, TimestampPrefix, Strip,
         ChunkChannel, ToolOutputFrom;
    HumanChunksExactly(r);
    if SpeaksForHuman(r) && FirstResult(r).Some? { ScanStopsByFirstResult(r); }
  }

  /** A grounded quote is tier 1 in exactly one case; everything else demotes to tier 4. */
  lemma TierOneExactly(r: Record, quote: string, statement: string, cited: Option<(int, int)>)
    ensures var content, g := ChunkOf(r), GroundQuote(Some(ChunkOf(r)), quote, statement, cited);
            g.Grounded? ==>
              && (g.tier == TIER_USER_INSTRUCTION <==>
                    && SpeaksForHuman(r) && SameCore(statement, quote)
                    && (forall i :: 0 <= i < g.end && LineStart(content, i) ==>
                          LineChannel(LineAt(content, i)) != ToolOutput))
              && (g.tier == TIER_USER_INSTRUCTION || g.tier == TIER_OBSERVER_INFERENCE)
  {
    ComparesCores(statement, quote);
    hide SameCore, LineChannel, NormalizeForComparison, Find, CleanPrefix, ChunkOf, TimestampPrefix, Strip,
         ChunkChannel,
         ToolOutputFrom;
    var content, g := ChunkOf(r), GroundQuote(Some(ChunkOf(r)), quote, statement, cited);
    HumanChunksExactly(r);
    ScanIsFirst(content, 0);
    if g.Grounded? {
      var tool := ToolOutputFrom(content, 0);
      if tool.Some? && g.end > tool.value {
        assert LineStart(content, tool.value) && LineChannel(LineAt(content, tool.value)) == ToolOutput;
      }
    }
  }

  predicate LineStart(content: string, i: int) {
    0 <= i <= |content| && (i == 0 || content[i - 1] == '\n')
  }

  /** The scan finds the first line start, from a line start on, that reads as tool output. */
  lemma {:induction false} ScanIsFirst(content: string, from: nat)
    requires LineStart(content, from)
    ensures var t := ToolOutputFrom(content, from);
            && (t.Some? ==> LineStart(content, t.value) && LineChannel(LineAt(content, t.value)) == ToolOutput)
            && (forall i :: from <= i && LineStart(content, i) && (t.Some? ==> i < t.value) ==>
                  LineChannel(LineAt(content, i)) != ToolOutput)
    decreases |content| - from
  {
    hide LineChannel;
    var t := ToolOutputFrom(content, from);
    if LineChannel(LineAt(content, from)) != ToolOutput {
      var j := LineEnd(content, from);
      if j < |content| { ScanIsFirst(content, j + 1); }
      forall i | from <= i && LineStart(content, i) && (t.Some? ==> i < t.value)
        ensures LineChannel(LineAt(content, i)) != ToolOutput
      {
        if from < i { LineEndsByBreak(content, from, i - 1); }
      }
    }
  }
}
