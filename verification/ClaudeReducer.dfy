/** The Claude Code fold of `summary/claude_code.py`: one pass over decoded records that updates a
    snapshot and, beside it, the open-question state of `OpenQuestions`. */
module ClaudeReducer {
  import opened Text
  import opened SummaryModel
  import opened OpenQuestions
  import opened ReducerLoop

  const SOURCE := "claude-code"
  const ASK_TOOL := "AskUserQuestion"
  const PLAN_TOOL := "TodoWrite"

  datatype ToolOutcome = ToolOutcome(id: Option<string>, text: string, failed: bool)

  /** A `tool_use` block. `detail` is the argument text its activity line shows; a missing or
      malformed plan or question list decodes to `NotAList` or `NotQuestions`. */
  datatype ToolCall = ToolCall(name: Option<string>, id: Option<string>, detail: string, plan: Plan,
                               questions: Questions)

  datatype Notice = Notice(task: string, status: string)

  /** One canonical event as the reducer reads it. */
  datatype ClaudeEvent =
    | Undecodable
    | Compaction
    | Notification(notice: Option<Notice>)
    | Bookkeeping
    | User(task: Option<string>, outcomes: seq<ToolOutcome>, injected: bool, text: string)
    | Assistant(said: string, calls: seq<ToolCall>)

  // ----- The snapshot half of a step -----

  function TurnOpen(kind: Kind, id: Option<string>): Claim {
    StructuralClaim(TURN_OPEN, kind, id)
  }

  function RegisterTask(s: Snapshot, task: string): Snapshot {
    if task in s.background then s.(turn := TurnOpen(BackgroundTask, Some(task)))
    else if |s.background| >= MAX_BACKGROUND_TASKS then WithUnknown(s, ClaudeBackgroundTasks)
    else s.(background := s.background + {task}, turn := TurnOpen(BackgroundTask, Some(task)))
  }

  predicate Succeeded(status: string) {
    status == "completed" || status == "succeeded" || status == "success"
  }

  function ApplyNotice(s: Snapshot, notice: Notice): Snapshot {
    if notice.task !in s.background then s
    else
      var remaining := s.background - {notice.task};
      s.(background := remaining,
         command := if Succeeded(notice.status) then Quiet(BackgroundTask, Some(notice.task))
                    else StructuralClaim("Background task " + notice.status, BackgroundTask, Some(notice.task)),
         turn := StructuralClaim(if remaining != {} then TURN_OPEN else TURN_RETURNED, BackgroundTask,
                                 Some(notice.task)))
  }

  function Compact(s: Snapshot): Snapshot {
    var recent := if s.recent != [] && s.recent[|s.recent| - 1].kind == Compacted then s.recent
                  else AppendRecent(s.recent, "Context compacted", Structural, Compacted, None);
    s.(compaction := StructuralClaim("Context compacted", Compacted, None), recent := recent)
  }

  function NoteOutcome(s: Snapshot, o: ToolOutcome): Snapshot {
    s.(command :=
         if o.failed then ExactClaim(if o.text != "" then o.text else "Tool failed this turn", ToolResult, o.id)
         else Quiet(ToolResult, o.id),
       recent := FoldRecentResult(s.recent, o.text, if o.failed then ToolError else ToolResult, o.id),
       turn := TurnOpen(ToolResult, None))
  }

  function NoteOutcomes(s: Snapshot, outcomes: seq<ToolOutcome>): Snapshot {
    if outcomes == [] then s else NoteOutcome(NoteOutcomes(s, outcomes[..|outcomes| - 1]), outcomes[|outcomes| - 1])
  }

  function NoteHuman(s: Snapshot, text: string): Snapshot {
    s.(command := Quiet(HumanMessage, None), request := ExactClaim(text, HumanMessage, None),
       recent := AppendRecent(s.recent, "Human: " + text, Exact, HumanMessage, None),
       turn := TurnOpen(HumanMessage, None))
  }

  function ToolActivity(name: string, detail: string): string {
    var rendered := SanitizeText(detail);
    "Tool " + name + if rendered != "" then ": " + rendered else ""
  }

  /** A usable name; an empty one counts as none. */
  predicate HasName(c: ToolCall) {
    c.name.Some? && c.name.value != ""
  }

  function NoteCall(s: Snapshot, c: ToolCall): Snapshot {
    if !HasName(c) then WithUnknown(s, ClaudeToolName)
    else
      var s' := s.(recent := AppendRecent(s.recent, ToolActivity(c.name.value, c.detail), Exact, ToolUse, c.id));
      if c.name == Some(PLAN_TOOL) then s'.(tasks := TaskCollection(c.plan, TodoWrite)) else s'
  }

  function NoteCalls(s: Snapshot, calls: seq<ToolCall>): Snapshot {
    if calls == [] then s else NoteCall(NoteCalls(s, calls[..|calls| - 1]), calls[|calls| - 1])
  }

  predicate Waiting(calls: seq<ToolCall>) {
    exists i :: 0 <= i < |calls| && calls[i].name == Some(ASK_TOOL)
  }

  function NoteSaid(s: Snapshot, said: string): Snapshot {
    if said == "" then s else s.(recent := AppendRecent(s.recent, "Agent: " + said, Exact, AgentMessage, None))
  }

  function CloseAssistant(s: Snapshot, said: string, calls: seq<ToolCall>): Snapshot {
    if calls != [] then s.(turn := StructuralClaim(if Waiting(calls) then TURN_AWAITING else TURN_OPEN, ToolUse, None))
    else if said != "" && s.background == {} then s.(turn := StructuralClaim(TURN_RETURNED, AssistantFinal, None))
    else s
  }

  function Note(s: Snapshot, e: ClaudeEvent): Snapshot {
    match e
    case Undecodable => WithUnknown(s, ClaudePayload)
    case Compaction => Compact(s)
    case Notification(notice) => if notice.Some? then ApplyNotice(s, notice.value) else s
    case Bookkeeping => s
    case User(task, outcomes, injected, text) =>
      var s' := if task.Some? then RegisterTask(s, task.value) else s;
      if outcomes != [] then NoteOutcomes(s', outcomes) else if injected then s' else NoteHuman(s', text)
    case Assistant(said, calls) => CloseAssistant(NoteCalls(NoteSaid(s, said), calls), said, calls)
  }

  // ----- The question half of a step -----

  function OutcomeOps(outcomes: seq<ToolOutcome>): seq<QuestionOp> {
    if outcomes == [] then []
    else
      var last := outcomes[|outcomes| - 1];
      OutcomeOps(outcomes[..|outcomes| - 1]) + if last.id.Some? then [Answer(last.id.value)] else []
  }

  function CallOp(c: ToolCall): QuestionOp {
    if c.id.None? || c.id.value == "" then Ask(None, None)
    else Ask(c.id, QuestionClaims(c.questions, AskUserQuestion, c.id.value))
  }

  function CallOps(calls: seq<ToolCall>): seq<QuestionOp> {
    if calls == [] then []
    else
      var last := calls[|calls| - 1];
      CallOps(calls[..|calls| - 1]) + if last.name == Some(ASK_TOOL) then [CallOp(last)] else []
  }

  function Ops(e: ClaudeEvent): seq<QuestionOp> {
    match e
    case User(_, outcomes, _, _) => OutcomeOps(outcomes)
    case Assistant(_, calls) => CallOps(calls)
    case _ => []
  }

  // ----- The whole fold -----

  function Step(l: Loop, e: ClaudeEvent): Loop {
    Loop(Note(l.snap, e), ApplyAll(l.open, Ops(e)))
  }

  function Fold(l: Loop, events: seq<ClaudeEvent>): Loop {
    if events == [] then l else Step(Fold(l, events[..|events| - 1]), events[|events| - 1])
  }

  function Start(key: string, initial: Option<Snapshot>): Loop {
    var s := if initial.Some? then initial.value else StartingSnapshot(SOURCE, key);
    Loop(s, Rebuilt(s))
  }

  function Finish(l: Loop): Snapshot {
    Close(l, AskUserQuestion)
  }

  /** `reduce_claude_events(key, events, initial=initial)`. */
  function Reduce(key: string, events: seq<ClaudeEvent>, initial: Option<Snapshot>): Snapshot {
    Finish(Fold(Start(key, initial), events))
  }

  /** The loop over a record's tool results. */
  method TakeOutcomes(before: Snapshot, open: Open, outcomes: seq<ToolOutcome>)
    returns (snapshot: Snapshot, pending: Pending)
    ensures snapshot == NoteOutcomes(before, outcomes)
    ensures open.(pending := pending) == ApplyAll(open, OutcomeOps(outcomes))
  {
    hide SanitizeText, AppendRecent, FoldRecentResult;
    snapshot, pending := before, open.pending;
    for j := 0 to |outcomes|
      invariant snapshot == NoteOutcomes(before, outcomes[..j])
      invariant open.(pending := pending) == ApplyAll(open, OutcomeOps(outcomes[..j]))
    {
      var outcome := outcomes[j];
      assert outcomes[..j + 1][..j] == outcomes[..j];
      ApplyAllConcat(open, OutcomeOps(outcomes[..j]), if outcome.id.Some? then [Answer(outcome.id.value)] else []);
      ApplyOne(ApplyAll(open, OutcomeOps(outcomes[..j])), Answer(outcome.id.GetOr("")));
      if outcome.id.Some? { pending := Pop(pending, outcome.id.value); }
      snapshot := NoteOutcome(snapshot, outcome);
    }
    assert outcomes[..|outcomes|] == outcomes;
  }

  /** The loop over a record's tool calls. */
  method TakeCalls(before: Snapshot, open: Open, calls: seq<ToolCall>)
    returns (snapshot: Snapshot, pending: Pending, questionsUnknown: bool)
    ensures snapshot == NoteCalls(before, calls)
    ensures Open(pending, questionsUnknown) == ApplyAll(open, CallOps(calls))
  {
    hide SanitizeText, AppendRecent, TaskCollection, Flatten;
    snapshot, pending, questionsUnknown := before, open.pending, open.unknown;
    for j := 0 to |calls|
      invariant snapshot == NoteCalls(before, calls[..j])
      invariant Open(pending, questionsUnknown) == ApplyAll(open, CallOps(calls[..j]))
    {
      var call := calls[j];
      assert calls[..j + 1][..j] == calls[..j];
      ApplyAllConcat(open, CallOps(calls[..j]), if call.name == Some(ASK_TOOL) then [CallOp(call)] else []);
      ApplyOne(ApplyAll(open, CallOps(calls[..j])), CallOp(call));
      snapshot := NoteCall(snapshot, call);
      if call.name == Some(ASK_TOOL) {
        var op := CallOp(call);
        if op.id.None? || op.claims.None? {
          questionsUnknown := true;
        } else if |Flatten(pending)| + |op.claims.value| > MAX_COLLECTION_ITEMS {
          questionsUnknown := true;
        } else {
          pending := Put(pending, op.id.value, op.claims.value);
        }
      }
    }
    assert calls[..|calls|] == calls;
  }

  /** The reducer as the source runs it: a loop over events that rebinds its locals. */
  method ReduceClaudeEvents(key: string, events: seq<ClaudeEvent>, initial: Option<Snapshot>) returns (result: Snapshot)
    ensures result == Reduce(key, events, initial)
  {
    hide SanitizeText, AppendRecent, AppendReason, FoldRecentResult, TaskCollection, Flatten;
    var snapshot := if initial.Some? then initial.value else StartingSnapshot(SOURCE, key);
    var pending, questionsUnknown := PendingQuestions(snapshot), snapshot.questions.provenance == Unknown;
    for i := 0 to |events|
      invariant Loop(snapshot, Open(pending, questionsUnknown)) == Fold(Start(key, initial), events[..i])
    {
      ghost var before := Loop(snapshot, Open(pending, questionsUnknown));
      match events[i] {
        case Undecodable => snapshot := WithUnknown(snapshot, ClaudePayload);
        case Compaction => snapshot := Compact(snapshot);
        case Notification(notice) => if notice.Some? { snapshot := ApplyNotice(snapshot, notice.value); }
        case Bookkeeping =>
        case User(task, outcomes, injected, text) =>
          if task.Some? { snapshot := RegisterTask(snapshot, task.value); }
          if outcomes != [] {
            snapshot, pending := TakeOutcomes(snapshot, Open(pending, questionsUnknown), outcomes);
          } else if !injected {
            snapshot := NoteHuman(snapshot, text);
          }
        case Assistant(said, calls) =>
          snapshot := NoteSaid(snapshot, said);
          snapshot, pending, questionsUnknown := TakeCalls(snapshot, Open(pending, questionsUnknown), calls);
          snapshot := CloseAssistant(snapshot, said, calls);
      }
      assert events[..i + 1][..i] == events[..i];
      assert Loop(snapshot, Open(pending, questionsUnknown)) == Step(before, events[i]);
    }
    assert events[..|events|] == events;
    result := Finish(Loop(snapshot, Open(pending, questionsUnknown)));
  }

  lemma ApplyOne(o: Open, op: QuestionOp)
    ensures ApplyAll(o, [op]) == Apply(o, op)
    ensures ApplyAll(o, []) == o
  {
    assert [op][..0] == [];
  }

  lemma {:induction false} FoldConcat(l: Loop, xs: seq<ClaudeEvent>, ys: seq<ClaudeEvent>)
    ensures Fold(l, xs + ys) == Fold(Fold(l, xs), ys)
  {
    if ys == [] {
      assert xs + ys == xs;
    } else {
      assert (xs + ys)[..|xs + ys| - 1] == xs + ys[..|ys| - 1];
      FoldConcat(l, xs, ys[..|ys| - 1]);
    }
  }
}
