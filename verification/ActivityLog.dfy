/** What a snapshot shows as recent activity: the last eight entries of a log that every record of the
    transcript or rollout writes to, in which a result completes the newest call it answers. */
module ActivityLog {
  import opened Text
  import opened Sanitizing
  import opened SummaryModel
  import LastWord
  import Claude = ClaudeReducer
  import Codex = CodexReducer
  import CodexMeaning
  import opened ReducerLoop

  datatype Write =
    | Item(text: string, provenance: Provenance, kind: Kind, id: Option<string>)
    | Result(text: string, kind: Kind, id: Option<string>)
    | Mark

  type Log = seq<Activity>

  predicate IsCallOf(a: Activity, id: string) {
    a.id == Some(id) && a.kind in {ToolUse, FunctionCall}
  }

  /** The newest entry that calls `id`, if it is among the last eight. */
  predicate Answers(log: Log, k: nat, id: string) {
    && k < |log| <= k + 8 && IsCallOf(log[k], id)
    && forall j :: k < j < |log| ==> !IsCallOf(log[j], id)
  }

  function Completed(call: Activity, shown: string, kind: Kind): Activity {
    call.(text := if shown == "" then call.text else call.text + ": " + shown, kind := kind)
  }

  function Added(log: Log, text: string, provenance: Provenance, kind: Kind, id: Option<string>): Log {
    if SanitizeText(text) == "" then log else log + [Activity(SanitizeText(text), provenance, kind, id)]
  }

  /** An item is added if it shows anything; a result completes the call it answers and is added if
      there is none; a compaction is added unless it is the newest entry already. */
  ghost function Written(log: Log, w: Write): Log {
    match w
    case Item(text, provenance, kind, id) => Added(log, text, provenance, kind, id)
    case Mark =>
      if log != [] && log[|log| - 1].kind == Compacted then log
      else log + [Activity("Context compacted", Structural, Compacted, None)]
    case Result(text, kind, id) =>
      if id.Some? && exists k: nat :: Answers(log, k, id.value) then
        var k: nat :| Answers(log, k, id.value);
        log[k := Completed(log[k], SanitizeText(text), kind)]
      else Added(log, text, Exact, kind, id)
  }

  ghost function LogOf(writes: seq<Write>): Log {
    if writes == [] then [] else Written(LogOf(writes[..|writes| - 1]), writes[|writes| - 1])
  }

  /** The last eight entries. */
  function Window(log: Log): (r: Log) {
    if |log| <= 8 then log else log[|log| - 8..]
  }

  // ----- The bounded list is the window on the log -----

  lemma WindowNext(log: Log, a: Activity)
    ensures LastOf(Window(log) + [a], RECENT_ACTIVITY_LIMIT) == Window(log + [a])
  {
    if |log| >= 8 {
      assert (log[|log| - 8..] + [a])[1..] == log[|log| - 7..] + [a] == (log + [a])[|log| - 7..];
    }
  }

  lemma AddedShown(log: Log, text: string, provenance: Provenance, kind: Kind, id: Option<string>)
    ensures AppendRecent(Window(log), text, provenance, kind, id) == Window(Added(log, text, provenance, kind, id))
  {
    hide SanitizeText, Window, LastOf;
    WindowNext(log, Activity(SanitizeText(text), provenance, kind, id));
  }

  lemma WindowAt(log: Log, i: nat)
    requires i < |Window(log)|
    ensures |Window(log)| <= |log| && Window(log)[i] == log[|log| - |Window(log)| + i]
  {
  }

  lemma LastCallIs(recent: seq<Activity>, id: string, i: nat)
    requires i < |recent| && IsCallOf(recent[i], id)
    requires forall j :: i < j < |recent| ==> !IsCallOf(recent[j], id)
    ensures LastCall(recent, id) == i
  {
    var found := LastCall(recent, id);
    assert IsCall(recent[i], id);
    assert found >= 0 ==> IsCallOf(recent[found], id);
  }

  lemma AnswersInWindow(log: Log, k: nat, id: string)
    requires Answers(log, k, id)
    ensures var lost := |log| - |Window(log)|; lost <= k && LastCall(Window(log), id) == k - lost
  {
    hide IsCallOf;
    var lost := |log| - |Window(log)|;
    forall i | 0 <= i < |Window(log)| ensures Window(log)[i] == log[lost + i] {
    }
    LastCallIs(Window(log), id, k - lost);
  }

  lemma NoneInWindow(log: Log, id: string)
    requires !exists k: nat :: Answers(log, k, id)
    ensures LastCall(Window(log), id) == -1
  {
    hide Window, IsCallOf, IsCall, Answers;
    var recent, k := Window(log), LastCall(Window(log), id);
    if k >= 0 {
      WindowAt(log, k);
      var lost := |log| - |recent|;
      forall j | lost + k < j < |log| ensures !IsCallOf(log[j], id) {
        WindowAt(log, j - lost);
        SameCall(log[j], id);
      }
      SameCall(recent[k], id);
      NewestAnswers(log, lost + k, id);
    }
  }

  lemma SameCall(a: Activity, id: string)
    ensures IsCall(a, id) <==> IsCallOf(a, id)
  {
  }

  lemma NewestAnswers(log: Log, k: nat, id: string)
    requires k < |log| && |log| - |Window(log)| <= k && IsCallOf(log[k], id)
    requires forall j :: k < j < |log| ==> !IsCallOf(log[j], id)
    ensures Answers(log, k, id)
  {
  }

  lemma ResultAnswered(log: Log, k: nat, text: string, kind: Kind, id: string)
    requires Answers(log, k, id)
    ensures k < |log| && FoldRecentResult(Window(log), text, kind, Some(id))
                         == Window(log[k := Completed(log[k], SanitizeText(text), kind)])
  {
    hide SanitizeText, AppendRecent, Answers, Window;
    AnswersInWindow(log, k, id);
    CompletedShown(log, k, text, kind, id);
  }

  lemma ResultShown(log: Log, text: string, kind: Kind, id: Option<string>)
    ensures FoldRecentResult(Window(log), text, kind, id) == Window(Written(log, Result(text, kind, id)))
  {
    hide SanitizeText, AppendRecent, Answers, Window, FoldRecentResult, Added, Completed;
    if id.Some? && exists k: nat :: Answers(log, k, id.value) {
      forall k: nat | Answers(log, k, id.value)
        ensures k < |log| && FoldRecentResult(Window(log), text, kind, id)
                             == Window(log[k := Completed(log[k], SanitizeText(text), kind)])
      {
        ResultAnswered(log, k, text, kind, id.value);
      }
    } else {
      ResultAdded(log, text, kind, id);
    }
  }

  lemma ResultAdded(log: Log, text: string, kind: Kind, id: Option<string>)
    requires id.Some? ==> !exists k: nat :: Answers(log, k, id.value)
    ensures FoldRecentResult(Window(log), text, kind, id) == Window(Added(log, text, Exact, kind, id))
  {
    hide SanitizeText, AppendRecent, Answers, Window;
    SanitizedTwice(text);
    if id.Some? { NoneInWindow(log, id.value); }
    AddedShown(log, SanitizeText(text), Exact, kind, id);
  }

  lemma CompletedShown(log: Log, k: nat, text: string, kind: Kind, id: string)
    requires Answers(log, k, id)
    ensures var lost := |log| - |Window(log)|;
            && lost <= k
            && Window(log[k := Completed(log[k], SanitizeText(text), kind)])
               == Window(log)[k - lost := Completed(log[k], SanitizeText(text), kind)]
            && Window(log)[k - lost] == log[k] && log[k].id == Some(id)
  {
    hide SanitizeText, Completed;
  }

  // ----- Claude Code -----

  function ResultsOf(outcomes: seq<Claude.ToolOutcome>): seq<Write> {
    seq(|outcomes|, i requires 0 <= i < |outcomes| =>
      Result(outcomes[i].text, if outcomes[i].failed then ToolError else ToolResult, outcomes[i].id))
  }

  /** The line of one call: its name and what there is to show of its arguments. */
  function CallLine(name: string, detail: string): string {
    if SanitizeText(detail) == "" then "Tool " + name else "Tool " + name + ": " + SanitizeText(detail)
  }

  function ItemsOf(calls: seq<Claude.ToolCall>): seq<Write> {
    if calls == [] then []
    else
      var last := calls[|calls| - 1];
      ItemsOf(calls[..|calls| - 1]) +
      if last.name.GetOr("") == "" then [] else [Item(CallLine(last.name.value, last.detail), Exact, ToolUse, last.id)]
  }

  /** What one record writes to the log. */
  function ClaudeWrites(e: Claude.ClaudeEvent): seq<Write> {
    match e
    case Compaction => [Mark]
    case User(_, outcomes, injected, text) =>
      if outcomes != [] then ResultsOf(outcomes)
      else if injected then []
      else [Item("Human: " + text, Exact, HumanMessage, None)]
    case Assistant(said, calls) =>
      (if said == "" then [] else [Item("Agent: " + said, Exact, AgentMessage, None)]) + ItemsOf(calls)
    case _ => []
  }

  function AllClaudeWrites(events: seq<Claude.ClaudeEvent>): seq<Write> {
    if events == [] then []
    else AllClaudeWrites(events[..|events| - 1]) + ClaudeWrites(events[|events| - 1])
  }

  lemma {:induction false} OutcomesShown(s: Snapshot, writes: seq<Write>, outcomes: seq<Claude.ToolOutcome>)
    requires s.recent == Window(LogOf(writes))
    ensures Claude.NoteOutcomes(s, outcomes).recent == Window(LogOf(writes + ResultsOf(outcomes)))
  {
    hide SanitizeText, FoldRecentResult, Written, Window;
    if outcomes == [] {
      assert writes + ResultsOf(outcomes) == writes;
    } else {
      var n := |outcomes| - 1;
      var rest, last := outcomes[..n], outcomes[n];
      OutcomesShown(s, writes, rest);
      var w := Result(last.text, if last.failed then ToolError else ToolResult, last.id);
      ResultShown(LogOf(writes + ResultsOf(rest)), w.text, w.kind, w.id);
      LogNext(writes + ResultsOf(rest), w);
      assert writes + ResultsOf(outcomes) == writes + ResultsOf(rest) + [w];
    }
  }

  lemma LogNext(writes: seq<Write>, w: Write)
    ensures LogOf(writes + [w]) == Written(LogOf(writes), w)
  {
    assert (writes + [w])[..|writes|] == writes;
  }

  lemma ItemNext(writes: seq<Write>, text: string, provenance: Provenance, kind: Kind, id: Option<string>)
    ensures Window(LogOf(writes + [Item(text, provenance, kind, id)]))
            == AppendRecent(Window(LogOf(writes)), text, provenance, kind, id)
  {
    hide SanitizeText, Window;
    LogNext(writes, Item(text, provenance, kind, id));
    AddedShown(LogOf(writes), text, provenance, kind, id);
  }

  lemma {:induction false} CallsShown(s: Snapshot, writes: seq<Write>, calls: seq<Claude.ToolCall>)
    requires s.recent == Window(LogOf(writes))
    ensures Claude.NoteCalls(s, calls).recent == Window(LogOf(writes + ItemsOf(calls)))
  {
    hide SanitizeText, AppendRecent, Window, TaskCollection;
    if calls == [] {
      assert writes + ItemsOf(calls) == writes;
    } else {
      var n := |calls| - 1;
      var rest, last := calls[..n], calls[n];
      CallsShown(s, writes, rest);
      if last.name.GetOr("") == "" {
        assert writes + ItemsOf(calls) == writes + ItemsOf(rest);
      } else {
        var w := Item(CallLine(last.name.value, last.detail), Exact, ToolUse, last.id);
        CallLineIs(last.name.value, last.detail);
        AddedShown(LogOf(writes + ItemsOf(rest)), w.text, Exact, ToolUse, last.id);
        LogNext(writes + ItemsOf(rest), w);
        assert writes + ItemsOf(calls) == writes + ItemsOf(rest) + [w];
      }
    }
  }

  lemma CallLineIs(name: string, detail: string)
    ensures Claude.ToolActivity(name, detail) == CallLine(name, detail)
    ensures Codex.CallActivity(name, detail) == CallLine(name, detail)
  {
    hide SanitizeText;
    assert "Tool " + name + "" == "Tool " + name;
    assert "Tool " + name + ": " + SanitizeText(detail) == "Tool " + name + (": " + SanitizeText(detail));
  }

  lemma MarkShown(log: Log)
    ensures var recent := Window(log);
            Window(Written(log, Mark)) ==
            if recent != [] && recent[|recent| - 1].kind == Compacted then recent
            else AppendRecent(recent, "Context compacted", Structural, Compacted, None)
  {
    hide SanitizeText, AppendRecent, Window;
    LastWord.CompactedShown();
    AddedShown(log, "Context compacted", Structural, Compacted, None);
    WindowEnds(log);
  }

  lemma WindowEnds(log: Log)
    ensures Window(log) == [] <==> log == []
    ensures log != [] ==> Window(log)[|Window(log)| - 1] == log[|log| - 1]
  {
  }

  lemma NoteShown(s: Snapshot, e: Claude.ClaudeEvent, writes: seq<Write>)
    requires s.recent == Window(LogOf(writes))
    ensures Claude.Note(s, e).recent == Window(LogOf(writes + ClaudeWrites(e)))
  {
    hide SanitizeText, AppendRecent, Window, Written, LogOf, ItemsOf, ResultsOf;
    assert writes + [] == writes;
    match e
    case Compaction =>
      MarkShown(LogOf(writes));
      LogNext(writes, Mark);
    case User(task, outcomes, injected, text) =>
      var t := if task.Some? then Claude.RegisterTask(s, task.value) else s;
      if outcomes != [] {
        OutcomesShown(t, writes, outcomes);
      } else if !injected {
        ItemNext(writes, "Human: " + text, Exact, HumanMessage, None);
      }
    case Assistant(said, calls) => AssistantShown(s, said, calls, writes);
    case _ =>
  }

  lemma AssistantShown(s: Snapshot, said: string, calls: seq<Claude.ToolCall>, writes: seq<Write>)
    requires s.recent == Window(LogOf(writes))
    ensures Claude.Note(s, Claude.Assistant(said, calls)).recent
            == Window(LogOf(writes + ClaudeWrites(Claude.Assistant(said, calls))))
  {
    hide SanitizeText, AppendRecent, Window, Written, LogOf, ItemsOf, ResultsOf, Claude.NoteCalls;
    var t := Claude.NoteSaid(s, said);
    var more := if said == "" then writes else writes + [Item("Agent: " + said, Exact, AgentMessage, None)];
    if said != "" { ItemNext(writes, "Agent: " + said, Exact, AgentMessage, None); }
    CallsShown(t, more, calls);
    var head: seq<Write> := if said == "" then [] else [Item("Agent: " + said, Exact, AgentMessage, None)];
    assert more == writes + head;
    assert more + ItemsOf(calls) == writes + (head + ItemsOf(calls));
  }

  lemma {:induction false} ClaudeFoldShown(key: string, events: seq<Claude.ClaudeEvent>)
    ensures Claude.Fold(Claude.Start(key, None), events).snap.recent == Window(LogOf(AllClaudeWrites(events)))
  {
    hide Claude.Note, Window, LogOf, ClaudeWrites;
    if events == [] {
      NothingLogged();
    } else {
      var n := |events| - 1;
      ClaudeFoldShown(key, events[..n]);
      NoteShown(Claude.Fold(Claude.Start(key, None), events[..n]).snap, events[n], AllClaudeWrites(events[..n]));
    }
  }

  lemma NothingLogged()
    ensures Window(LogOf([])) == []
  {
  }

  /** Every transcript shows the last eight entries of its log. */
  lemma ClaudeActivity(key: string, events: seq<Claude.ClaudeEvent>)
    ensures Claude.Reduce(key, events, None).recent == Window(LogOf(AllClaudeWrites(events)))
  {
    hide Claude.Fold, Window, LogOf;
    ClaudeFoldShown(key, events);
  }

  // ----- Codex -----

  function CodexWrites(e: Codex.CodexEvent): seq<Write> {
    match e
    case Compaction => [Mark]
    case AgentSaid(said) => [Item("Agent: " + said, Exact, AgentMessage, None)]
    case HumanSaid(_, request) =>
      if CodexMeaning.AttachmentOnly(e) then [] else [Item("Human: " + request, Exact, HumanMessage, None)]
    case Call(c) =>
      if c.name.GetOr("") == "" then [] else [Item(CallLine(c.name.value, c.detail), Exact, FunctionCall, c.id)]
    case Output(id, output) => [Result(output, FunctionCallOutput, id)]
    case TurnEnd(aborted) =>
      [Item(if aborted then "Turn aborted" else "Turn returned to human", Structural, TurnBoundary, None)]
    case Failed(f) =>
      var claim := CodexMeaning.FailureShown(f);
      if claim.text.Some? && claim.kind.Some? then [Item(claim.text.value, claim.provenance, claim.kind.value, None)]
      else []
    case Unsupported => [Item("Unsupported source event", Unknown, Unrecognized, None)]
    case _ => []
  }

  function AllCodexWrites(events: seq<Codex.CodexEvent>): seq<Write> {
    if events == [] then []
    else AllCodexWrites(events[..|events| - 1]) + CodexWrites(events[|events| - 1])
  }

  lemma BlankAdds(recent: seq<Activity>, provenance: Provenance, kind: Kind, id: Option<string>)
    ensures AppendRecent(recent, "", provenance, kind, id) == recent
  {
    assert LStrip("") == "";
  }

  lemma CodexNoteShown(s: Snapshot, e: Codex.CodexEvent, taken: bool, writes: seq<Write>)
    requires s.recent == Window(LogOf(writes))
    ensures Codex.Note(s, e, taken).recent == Window(LogOf(writes + CodexWrites(e)))
  {
    hide SanitizeText, AppendRecent, Window, Written, FoldRecentResult, TaskCollection, LogOf, CallLine, Codex.BaseName,
      Codex.FailureClaim, Codex.CallActivity;
    assert writes + [] == writes;
    match e
    case Compaction =>
      MarkShown(LogOf(writes));
      LogNext(writes, Mark);
    case AgentSaid(said) => ItemNext(writes, "Agent: " + said, Exact, AgentMessage, None);
    case HumanSaid(_, request) =>
      ItemNext(writes, "Human: " + request, Exact, HumanMessage, None);
    case Call(c) =>
      if c.name.Some? {
        CallLineIs(c.name.value, c.detail);
        ItemNext(writes, CallLine(c.name.value, c.detail), Exact, FunctionCall, c.id);
      }
    case Output(id, output) =>
      ResultShown(LogOf(writes), output, FunctionCallOutput, id);
      LogNext(writes, Result(output, FunctionCallOutput, id));
    case TurnEnd(aborted) =>
      ItemNext(writes, if aborted then "Turn aborted" else "Turn returned to human", Structural, TurnBoundary, None);
    case Failed(f) => FailureWritten(s, f, writes);
    case Unsupported => ItemNext(writes, "Unsupported source event", Unknown, Unrecognized, None);
    case _ =>
  }

  lemma FailureWritten(s: Snapshot, f: Codex.Failure, writes: seq<Write>)
    requires s.recent == Window(LogOf(writes))
    ensures Codex.NoteFailure(s, f).recent == Window(LogOf(writes + CodexWrites(Codex.Failed(f))))
  {
    hide SanitizeText, AppendRecent, Window, LogOf, Decimal;
    CodexMeaning.FailureIs(f);
    var claim := CodexMeaning.FailureShown(f);
    if claim.text.Some? {
      ItemNext(writes, claim.text.value, claim.provenance, claim.kind.value, None);
    } else {
      BlankAdds(s.recent, claim.provenance, claim.kind.GetOr(SourceError), None);
      assert writes + [] == writes;
    }
  }

  lemma {:induction false} CodexFoldShown(key: string, events: seq<Codex.CodexEvent>)
    ensures Codex.Fold(Codex.Start(key, None), events).snap.recent == Window(LogOf(AllCodexWrites(events)))
  {
    hide Codex.Note, Window, LogOf, CodexWrites, Codex.Taken, Codex.Advance;
    if events == [] {
      NothingLogged();
    } else {
      var n := |events| - 1;
      var l := Codex.Fold(Codex.Start(key, None), events[..n]);
      CodexFoldShown(key, events[..n]);
      CodexNoteShown(l.snap, events[n], Codex.Taken(l.open, events[n]), AllCodexWrites(events[..n]));
    }
  }

  /** Every rollout shows the last eight entries of its log. */
  lemma CodexActivity(key: string, events: seq<Codex.CodexEvent>)
    ensures Codex.Reduce(key, events, None).recent == Window(LogOf(AllCodexWrites(events)))
  {
    hide Codex.Fold, Window, LogOf;
    CodexFoldShown(key, events);
  }

  // ----- The log only grows -----

  /** `now` continues `was`: earlier entries keep their place, provenance, id and text, except that a
      text may be completed at its end. */
  ghost predicate Continues(was: Log, now: Log) {
    |was| <= |now| && forall i :: 0 <= i < |was| ==>
      was[i].id == now[i].id && was[i].provenance == now[i].provenance && was[i].text <= now[i].text
  }

  lemma WrittenContinues(log: Log, w: Write)
    ensures Continues(log, Written(log, w)) && |Written(log, w)| <= |log| + 1
  {
    hide SanitizeText, Answers;
    if w.Result? && w.id.Some? && exists k: nat :: Answers(log, k, w.id.value) {
      forall k: nat | Answers(log, k, w.id.value)
        ensures k < |log| && log[k].text <= Completed(log[k], SanitizeText(w.text), w.kind).text
      {
        AnswerIsEntry(log, k, w.id.value);
      }
    }
  }

  lemma AnswerIsEntry(log: Log, k: nat, id: string)
    requires Answers(log, k, id)
    ensures k < |log|
  {
  }

  /** No entry is ever dropped, moved or rewritten by what comes later. */
  lemma {:induction false} LogContinues(earlier: seq<Write>, later: seq<Write>)
    ensures Continues(LogOf(earlier), LogOf(earlier + later))
  {
    hide Written;
    if later == [] {
      assert earlier + later == earlier;
    } else {
      var n := |later| - 1;
      LogContinues(earlier, later[..n]);
      assert earlier + later == earlier + later[..n] + [later[n]];
      LogNext(earlier + later[..n], later[n]);
      WrittenContinues(LogOf(earlier + later[..n]), later[n]);
    }
  }
}
