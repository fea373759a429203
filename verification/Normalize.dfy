/** Rendering one Claude Code record to transcript lines (`extract/normalize.py`). */
module Normalize {
  import opened Text

  const TOOL_RESULT_CHAR_CAP: nat := 400
  const TEXT_CHAR_CAP: nat := 3000

  datatype ToolText = ToolText(content: string, failed: bool)

  /** A decoded record. `human` is the verdict of `classify_channel`; `calls` holds one summary per
      tool call, `kind` the adapter's name for a system subtype. */
  datatype Record =
    | UserRecord(timestamp: Option<string>, texts: seq<string>, results: seq<ToolText>, human: bool)
    | AssistantRecord(timestamp: Option<string>, texts: seq<string>, calls: seq<string>)
    | SystemRecord(timestamp: Option<string>, kind: string, text: string)
    | OtherRecord

  function NewlineRun(s: string): (n: nat)
    ensures n <= |s|
  {
    if s != "" && s[0] == '\n' then 1 + NewlineRun(s[1..]) else 0
  }

  /** Runs of three or more newlines become two. */
  function CollapseBlankLines(s: string): string
    decreases |s|
  {
    if s == "" then ""
    else
      var n := NewlineRun(s);
      if n == 0 then [s[0]] + CollapseBlankLines(s[1..])
      else (if n >= 3 then "\n\n" else s[..n]) + CollapseBlankLines(s[n..])
  }

  function Clip(text: string, limit: nat): string {
    var t := CollapseBlankLines(text);
    if |t| <= limit then t else t[..limit] + "\n" + [ELLIPSIS] + "[+" + Decimal(|t| - limit) + " chars]"
  }

  function TimestampPrefix(timestamp: Option<string>): string {
    if timestamp.Some? && |timestamp.value| >= 19 then "[" + timestamp.value[11..19] + "] " else ""
  }

  const HUMAN_TAG := "HUMAN: "
  const INJECTED_TAG := "INJECTED: "
  const AGENT_TAG := "AGENT: "
  const SYSTEM_TAG := "SYSTEM("
  const TOOL_MARK := "  tool>"
  const RESULT_MARK := "  result>"
  const ERROR_MARK := "  result[error]>"

  function TextLines(prefix: string, tag: string, texts: seq<string>): seq<string> {
    if texts == [] then []
    else
      var stripped := Strip(texts[|texts| - 1]);
      TextLines(prefix, tag, texts[..|texts| - 1])
      + if stripped != "" then [prefix + tag + Clip(stripped, TEXT_CHAR_CAP)] else []
  }

  function ResultLines(prefix: string, results: seq<ToolText>): seq<string> {
    if results == [] then []
    else
      var last := results[|results| - 1];
      var stripped := Strip(last.content);
      ResultLines(prefix, results[..|results| - 1])
      + if stripped == "" then []
        else [prefix + (if last.failed then ERROR_MARK else RESULT_MARK) + " " + Clip(stripped, TOOL_RESULT_CHAR_CAP)]
  }

  function CallLines(prefix: string, calls: seq<string>): seq<string> {
    if calls == [] then []
    else CallLines(prefix, calls[..|calls| - 1]) + [prefix + TOOL_MARK + " " + calls[|calls| - 1]]
  }

  function SystemLine(prefix: string, kind: string, text: string): string {
    var stripped := Strip(text);
    prefix + SYSTEM_TAG + kind + ")" + if stripped != "" then ": " + Clip(stripped, TEXT_CHAR_CAP) else ""
  }

  function RenderRecord(r: Record): seq<string> {
    match r
    case UserRecord(ts, texts, results, human) =>
      var prefix := TimestampPrefix(ts);
      TextLines(prefix, if human then HUMAN_TAG else INJECTED_TAG, texts) + ResultLines(prefix, results)
    case AssistantRecord(ts, texts, calls) =>
      var prefix := TimestampPrefix(ts);
      TextLines(prefix, AGENT_TAG, texts) + CallLines(prefix, calls)
    case SystemRecord(ts, kind, text) => [SystemLine(TimestampPrefix(ts), kind, text)]
    case OtherRecord => []
  }

  function RenderRecords(records: seq<Record>): seq<string> {
    if records == [] then [] else RenderRecords(records[..|records| - 1]) + RenderRecord(records[|records| - 1])
  }

  /** `normalize_records`: one line per newline, or nothing at all. */
  function NormalizeRecords(records: seq<Record>): string {
    var lines := RenderRecords(records);
    if lines == [] then "" else Join(lines, "\n") + "\n"
  }

  /** The content of the transcript chunk that stores one record. */
  function ChunkOf(r: Record): string {
    NormalizeRecords([r])
  }

  /** `_render_user` as the source runs it: one loop over the texts, one over the results. */
  method RenderUser(prefix: string, texts: seq<string>, results: seq<ToolText>, human: bool)
    returns (lines: seq<string>)
    ensures lines == TextLines(prefix, if human then HUMAN_TAG else INJECTED_TAG, texts) + ResultLines(prefix, results)
  {
    hide Clip, Strip;
    lines := [];
    var tag := if human then HUMAN_TAG else INJECTED_TAG;
    for j := 0 to |texts|
      invariant lines == TextLines(prefix, tag, texts[..j])
    {
      assert texts[..j + 1][..j] == texts[..j];
      var stripped := Strip(texts[j]);
      if stripped != "" { lines := lines + [prefix + tag + Clip(stripped, TEXT_CHAR_CAP)]; }
    }
    assert texts[..|texts|] == texts;
    for j := 0 to |results|
      invariant lines == TextLines(prefix, tag, texts) + ResultLines(prefix, results[..j])
    {
      assert results[..j + 1][..j] == results[..j];
      var stripped := Strip(results[j].content);
      if stripped != "" {
        var mark := if results[j].failed then ERROR_MARK else RESULT_MARK;
        lines := lines + [prefix + mark + " " + Clip(stripped, TOOL_RESULT_CHAR_CAP)];
      }
    }
    assert results[..|results|] == results;
  }

  /** `normalize_records` as the source runs it. */
  method Normalized(records: seq<Record>) returns (transcript: string)
    ensures transcript == NormalizeRecords(records)
  {
    hide Clip, Strip, Join, TimestampPrefix, TextLines, ResultLines, CallLines, SystemLine;
    var lines := [];
    for i := 0 to |records|
      invariant lines == RenderRecords(records[..i])
    {
      assert records[..i + 1][..i] == records[..i];
      var rendered;
      match records[i] {
        case UserRecord(ts, texts, results, human) =>
          rendered := RenderUser(TimestampPrefix(ts), texts, results, human);
        case _ => rendered := RenderRecord(records[i]);
      }
      lines := lines + rendered;
    }
    assert records[..|records|] == records;
    transcript := if lines == [] then "" else Join(lines, "\n") + "\n";
  }

  // ----- Transcripts as newline-terminated lines -----

  function Terminated(lines: seq<string>): string {
    if lines == [] then "" else lines[0] + "\n" + Terminated(lines[1..])
  }

  lemma {:induction false} JoinTerminated(lines: seq<string>)
    requires lines != []
    ensures Join(lines, "\n") + "\n" == Terminated(lines)
  {
    if |lines| == 1 {
      assert lines[1..] == [];
    } else {
      JoinTerminated(lines[1..]);
      assert Join(lines, "\n") + "\n" == lines[0] + "\n" + (Join(lines[1..], "\n") + "\n");
    }
  }

  lemma {:induction false} TerminatedConcat(a: seq<string>, b: seq<string>)
    ensures Terminated(a + b) == Terminated(a) + Terminated(b)
  {
    if a == [] {
      assert a + b == b;
    } else {
      assert (a + b)[0] == a[0] && (a + b)[1..] == a[1..] + b;
      TerminatedConcat(a[1..], b);
      assert a[0] + "\n" + (Terminated(a[1..]) + Terminated(b)) == (a[0] + "\n" + Terminated(a[1..])) + Terminated(b);
    }
  }

  lemma NormalizeTerminated(records: seq<Record>)
    ensures NormalizeRecords(records) == Terminated(RenderRecords(records))
  {
    if RenderRecords(records) != [] { JoinTerminated(RenderRecords(records)); }
  }

  lemma ChunkTerminated(r: Record)
    ensures ChunkOf(r) == Terminated(RenderRecord(r))
  {
    NormalizeTerminated([r]);
    assert [r][..0] == [];
    assert RenderRecords([r]) == [] + RenderRecord(r) == RenderRecord(r);
  }

  /** The chunks of a run of records, joined, are exactly their full transcript. */
  lemma {:induction false} ChunksConcatenate(records: seq<Record>)
    ensures NormalizeRecords(records) == Concatenated(records)
  {
    NormalizeTerminated(records);
    if records != [] {
      var n := |records| - 1;
      ChunksConcatenate(records[..n]);
      NormalizeTerminated(records[..n]);
      ChunkTerminated(records[n]);
      TerminatedConcat(RenderRecords(records[..n]), RenderRecord(records[n]));
    }
  }

  function Concatenated(records: seq<Record>): string {
    if records == [] then "" else Concatenated(records[..|records| - 1]) + ChunkOf(records[|records| - 1])
  }
}
