/** Snapshots stay bounded (`summary/model.py`) through every fold of either reducer and every cut
    between batches. */
module SnapshotBounds {
  import opened Text
  import opened SummaryModel
  import opened OpenQuestions
  import opened ReducerLoop
  import Tail
  import Claude = ClaudeReducer
  import ClaudeBatching
  import Codex = CodexReducer
  import CodexBatching
  import opened SummaryUpdater
  import opened UpdaterRuns

  /** Two sanitized texts and the separator between them. */
  const FOLDED_TEXT_LIMIT: nat := 482

  /** Starts with a visible character and is no longer than `limit`. */
  predicate Displayable(s: string, limit: nat) {
    s != "" && !IsSpace(s[0]) && |s| <= limit
  }

  predicate ClaimShort(c: Claim) {
    c.text.Some? ==> c.text.value == "" || Displayable(c.text.value, DISPLAY_TEXT_LIMIT)
  }

  predicate IsCallKind(kind: Kind) {
    kind == ToolUse || kind == FunctionCall
  }

  /** An invocation still waiting for its result is short enough to fold the result in. */
  predicate ActivityShort(a: Activity) {
    Displayable(a.text, if IsCallKind(a.kind) then DISPLAY_TEXT_LIMIT else FOLDED_TEXT_LIMIT)
  }

  predicate RecentShort(recent: seq<Activity>) {
    |recent| <= RECENT_ACTIVITY_LIMIT && forall i :: 0 <= i < |recent| ==> ActivityShort(recent[i])
  }

  predicate TasksShort(tasks: Collection<TaskItem>) {
    && |tasks.items| <= MAX_COLLECTION_ITEMS
    && forall i :: 0 <= i < |tasks.items| ==>
         Displayable(tasks.items[i].text, DISPLAY_TEXT_LIMIT) && Displayable(tasks.items[i].status, DISPLAY_TEXT_LIMIT)
  }

  predicate ClaimsShort(claims: seq<Claim>) {
    forall i :: 0 <= i < |claims| ==> ClaimShort(claims[i])
  }

  predicate CoreShort(s: Snapshot) {
    && RecentShort(s.recent) && TasksShort(s.tasks)
    && |s.background| <= MAX_BACKGROUND_TASKS && |s.reasons| <= MAX_UNKNOWN_REASONS
    && ClaimShort(s.request) && ClaimShort(s.command) && ClaimShort(s.compaction) && ClaimShort(s.turn)
  }

  /** Every bound the package promises of a snapshot. */
  predicate Short(s: Snapshot) {
    CoreShort(s) && |s.questions.items| <= MAX_COLLECTION_ITEMS && ClaimsShort(s.questions.items)
  }

  // ----- The shared updates -----

  lemma RecentAppends(recent: seq<Activity>, text: string, provenance: Provenance, kind: Kind, id: Option<string>)
    requires RecentShort(recent)
    ensures RecentShort(AppendRecent(recent, text, provenance, kind, id))
  {
    hide SanitizeText;
    var rendered := SanitizeText(text);
    if rendered != "" {
      var item := Activity(rendered, provenance, kind, id);
      assert ActivityShort(item);
      assert forall i :: 0 <= i < |recent + [item]| ==> ActivityShort((recent + [item])[i]);
    }
  }

  lemma RecentFolds(recent: seq<Activity>, text: string, kind: Kind, id: Option<string>)
    requires RecentShort(recent) && !IsCallKind(kind)
    ensures RecentShort(FoldRecentResult(recent, text, kind, id))
  {
    hide SanitizeText, AppendRecent;
    RecentAppends(recent, SanitizeText(text), Exact, kind, id);
  }

  lemma StructuralShort(text: string, kind: Kind, id: Option<string>)
    ensures ClaimShort(StructuralClaim(text, kind, id)) && ClaimShort(ExactClaim(text, kind, id))
  {
    hide SanitizeText;
  }

  lemma UnknownShort(s: Snapshot, reason: Reason)
    requires Short(s)
    ensures Short(WithUnknown(s, reason))
  {
  }

  lemma UnknownCoreShort(s: Snapshot, reason: Reason)
    requires CoreShort(s)
    ensures CoreShort(WithUnknown(s, reason))
  {
  }

  lemma {:induction false} PlanShort(items: seq<PlanItem>, kind: Kind)
    ensures |PlanTasks(items, kind).items| <= |items|
    ensures var tasks := PlanTasks(items, kind);
            forall i :: 0 <= i < |tasks.items| ==>
              Displayable(tasks.items[i].text, DISPLAY_TEXT_LIMIT)
                && Displayable(tasks.items[i].status, DISPLAY_TEXT_LIMIT)
  {
    hide SanitizeText;
    if items != [] { PlanShort(items[1..], kind); }
  }

  lemma CollectionShort(plan: Plan, kind: Kind)
    ensures TasksShort(TaskCollection(plan, kind))
  {
    hide PlanTasks;
    if plan.Plan? { PlanShort(plan.items, kind); }
  }

  // ----- The open questions -----

  predicate PendingShort(p: Pending) {
    forall i :: 0 <= i < |p| ==> ClaimsShort(p[i].claims)
  }

  lemma {:induction false} PutShort(p: Pending, id: string, claims: seq<Claim>)
    requires PendingShort(p) && ClaimsShort(claims)
    ensures PendingShort(Put(p, id, claims))
  {
    hide ClaimsShort;
    if p != [] && p[0].id != id { PutShort(p[1..], id, claims); }
  }

  lemma {:induction false} PopShort(p: Pending, id: string)
    requires PendingShort(p)
    ensures PendingShort(Pop(p, id))
  {
    hide ClaimsShort;
    if p != [] && p[0].id != id { PopShort(p[1..], id); }
  }

  lemma {:induction false} FlattenShort(p: Pending)
    requires PendingShort(p)
    ensures ClaimsShort(Flatten(p))
  {
    if p != [] {
      assert ClaimsShort(p[0].claims);
      FlattenShort(p[1..]);
    }
  }

  lemma {:induction false} GetShort(p: Pending, id: string)
    requires PendingShort(p)
    ensures ClaimsShort(Get(p, id))
  {
    if p != [] && p[0].id != id { GetShort(p[1..], id); }
  }

  lemma {:induction false} GroupShort(p: Pending, claims: seq<Claim>)
    requires PendingShort(p) && ClaimsShort(claims)
    ensures PendingShort(GroupFrom(p, claims))
    decreases |claims|
  {
    hide PendingShort;
    if claims != [] {
      if claims[0].id.Some? {
        var id := claims[0].id.value;
        GetShort(p, id);
        PutShort(p, id, Get(p, id) + [claims[0]]);
        GroupShort(Put(p, id, Get(p, id) + [claims[0]]), claims[1..]);
      } else {
        GroupShort(p, claims[1..]);
      }
    }
  }

  lemma {:induction false} ClaimsOfShort(items: seq<QuestionItem>, kind: Kind, id: string)
    ensures ClaimsOf(items, kind, id).Some? ==> ClaimsShort(ClaimsOf(items, kind, id).value)
  {
    hide ExactClaim;
    if items != [] && items[0].QuestionItem? {
      StructuralShort(items[0].text, kind, Some(id));
      ClaimsOfShort(items[1..], kind, id);
    }
  }

  lemma ClaimedShort(questions: Questions, kind: Kind, id: string)
    ensures QuestionClaims(questions, kind, id).Some? ==> ClaimsShort(QuestionClaims(questions, kind, id).value)
  {
    hide ClaimsOf;
    if questions.Questions? { ClaimsOfShort(questions.items, kind, id); }
  }

  predicate OpShort(op: QuestionOp) {
    op.Ask? && op.claims.Some? ==> ClaimsShort(op.claims.value)
  }

  lemma {:induction false} ApplyAllShort(o: Open, ops: seq<QuestionOp>)
    requires PendingShort(o.pending) && forall i :: 0 <= i < |ops| ==> OpShort(ops[i])
    ensures PendingShort(ApplyAll(o, ops).pending)
  {
    hide PendingShort, ClaimsShort, Flatten, Put, Pop;
    if ops != [] {
      var n := |ops| - 1;
      ApplyAllShort(o, ops[..n]);
      ApplyShort(ApplyAll(o, ops[..n]), ops[n]);
    }
  }

  lemma ApplyShort(o: Open, op: QuestionOp)
    requires PendingShort(o.pending) && OpShort(op)
    ensures PendingShort(Apply(o, op).pending)
  {
    hide ClaimsShort, Flatten, Put, Pop;
    match op
    case Ask(id, claims) => if Usable(op) { PutShort(o.pending, id.value, claims.value); }
    case Answer(id) => PopShort(o.pending, id);
    case Boundary =>
  }

  predicate LoopShort(l: Loop) {
    CoreShort(l.snap) && PendingShort(l.open.pending)
  }

  lemma CloseShort(l: Loop, kind: Kind)
    requires LoopShort(l) && Bounded(l.open)
    ensures Short(Close(l, kind))
  {
    hide RecentShort, TasksShort, ClaimShort;
    FlattenShort(l.open.pending);
    var s := l.snap.(questions := Shown(l.open, kind));
    assert Short(s);
    UnknownShort(s, LastReason(s));
  }

  lemma StartShort(s: Snapshot)
    requires Short(s)
    ensures LoopShort(Loop(s, Rebuilt(s)))
  {
    GroupShort([], s.questions.items);
  }

  lemma FirstShort(source: string, key: string)
    ensures Short(StartingSnapshot(source, key))
  {
  }

  // ----- The Claude fold -----

  lemma OutcomeShort(s: Snapshot, o: Claude.ToolOutcome)
    requires CoreShort(s)
    ensures CoreShort(Claude.NoteOutcome(s, o))
  {
    hide SanitizeText, FoldRecentResult, StructuralClaim, ExactClaim, RecentShort, TasksShort;
    StructuralShort(o.text, ToolResult, o.id);
    StructuralShort("Tool failed this turn", ToolResult, o.id);
    StructuralShort(TURN_OPEN, ToolResult, None);
    RecentFolds(s.recent, o.text, if o.failed then ToolError else ToolResult, o.id);
  }

  lemma {:induction false} OutcomesShort(s: Snapshot, outcomes: seq<Claude.ToolOutcome>)
    requires CoreShort(s)
    ensures CoreShort(Claude.NoteOutcomes(s, outcomes))
  {
    hide CoreShort, Claude.NoteOutcome;
    if outcomes != [] {
      OutcomesShort(s, outcomes[..|outcomes| - 1]);
      OutcomeShort(Claude.NoteOutcomes(s, outcomes[..|outcomes| - 1]), outcomes[|outcomes| - 1]);
    }
  }

  lemma ClaudeCallShort(s: Snapshot, c: Claude.ToolCall)
    requires CoreShort(s)
    ensures CoreShort(Claude.NoteCall(s, c))
  {
    hide SanitizeText, AppendRecent, TaskCollection, RecentShort, TasksShort, WithUnknown;
    if !Claude.HasName(c) {
      UnknownCoreShort(s, ClaudeToolName);
    } else {
      RecentAppends(s.recent, Claude.ToolActivity(c.name.value, c.detail), Exact, ToolUse, c.id);
      CollectionShort(c.plan, TodoWrite);
    }
  }

  lemma {:induction false} ClaudeCallsShort(s: Snapshot, calls: seq<Claude.ToolCall>)
    requires CoreShort(s)
    ensures CoreShort(Claude.NoteCalls(s, calls))
  {
    hide CoreShort, Claude.NoteCall;
    if calls != [] {
      ClaudeCallsShort(s, calls[..|calls| - 1]);
      ClaudeCallShort(Claude.NoteCalls(s, calls[..|calls| - 1]), calls[|calls| - 1]);
    }
  }

  lemma RegisterShort(s: Snapshot, task: string)
    requires CoreShort(s)
    ensures CoreShort(Claude.RegisterTask(s, task))
  {
    hide StructuralClaim, RecentShort, TasksShort, WithUnknown, ClaimShort;
    StructuralShort(TURN_OPEN, BackgroundTask, Some(task));
    UnknownCoreShort(s, ClaudeBackgroundTasks);
  }

  lemma NoticeShort(s: Snapshot, notice: Claude.Notice)
    requires CoreShort(s)
    ensures CoreShort(Claude.ApplyNotice(s, notice))
  {
    hide StructuralClaim, RecentShort, TasksShort;
    StructuralShort("Background task " + notice.status, BackgroundTask, Some(notice.task));
    StructuralShort(TURN_OPEN, BackgroundTask, Some(notice.task));
    StructuralShort(TURN_RETURNED, BackgroundTask, Some(notice.task));
    if notice.task in s.background {
      assert |s.background - {notice.task}| <= |s.background|;
    }
  }

  lemma ClaudeCompactShort(s: Snapshot)
    requires CoreShort(s)
    ensures CoreShort(Claude.Compact(s))
  {
    hide AppendRecent, StructuralClaim, RecentShort, TasksShort, ClaimShort;
    StructuralShort("Context compacted", Compacted, None);
    RecentAppends(s.recent, "Context compacted", Structural, Compacted, None);
  }

  lemma ClaudeHumanShort(s: Snapshot, text: string)
    requires CoreShort(s)
    ensures CoreShort(Claude.NoteHuman(s, text))
  {
    hide AppendRecent, StructuralClaim, ExactClaim, RecentShort, TasksShort;
    StructuralShort(text, HumanMessage, None);
    StructuralShort(TURN_OPEN, HumanMessage, None);
    RecentAppends(s.recent, "Human: " + text, Exact, HumanMessage, None);
  }

  lemma ClaudeSaidShort(s: Snapshot, said: string)
    requires CoreShort(s)
    ensures CoreShort(Claude.NoteSaid(s, said))
  {
    hide AppendRecent, RecentShort, TasksShort, ClaimShort;
    RecentAppends(s.recent, "Agent: " + said, Exact, AgentMessage, None);
  }

  lemma ClaudeTurnShort(s: Snapshot, said: string, calls: seq<Claude.ToolCall>)
    requires CoreShort(s)
    ensures CoreShort(Claude.CloseAssistant(s, said, calls))
  {
    hide StructuralClaim, ExactClaim, RecentShort, TasksShort, ClaimShort, Claude.Waiting, SanitizeText;
    StructuralShort(TURN_AWAITING, ToolUse, None);
    StructuralShort(TURN_OPEN, ToolUse, None);
    StructuralShort(TURN_RETURNED, AssistantFinal, None);
  }

  lemma ClaudeNoteShort(s: Snapshot, e: Claude.ClaudeEvent)
    requires CoreShort(s)
    ensures CoreShort(Claude.Note(s, e))
  {
    hide CoreShort, WithUnknown, Claude.Compact, Claude.ApplyNotice, Claude.RegisterTask, Claude.NoteOutcomes,
         Claude.NoteHuman, Claude.NoteSaid, Claude.NoteCalls, Claude.CloseAssistant;
    match e
    case Undecodable => UnknownCoreShort(s, ClaudePayload);
    case Compaction => ClaudeCompactShort(s);
    case Notification(notice) => if notice.Some? { NoticeShort(s, notice.value); }
    case Bookkeeping =>
    case User(task, outcomes, injected, text) =>
      var s' := if task.Some? then Claude.RegisterTask(s, task.value) else s;
      if task.Some? { RegisterShort(s, task.value); }
      OutcomesShort(s', outcomes);
      ClaudeHumanShort(s', text);
    case Assistant(said, calls) =>
      ClaudeSaidShort(s, said);
      ClaudeCallsShort(Claude.NoteSaid(s, said), calls);
      ClaudeTurnShort(Claude.NoteCalls(Claude.NoteSaid(s, said), calls), said, calls);
  }

  lemma {:induction false} CallOpsShort(calls: seq<Claude.ToolCall>)
    ensures forall i :: 0 <= i < |Claude.CallOps(calls)| ==> OpShort(Claude.CallOps(calls)[i])
  {
    hide QuestionClaims, ClaimsShort;
    if calls != [] {
      var last := calls[|calls| - 1];
      CallOpsShort(calls[..|calls| - 1]);
      ClaimedShort(last.questions, AskUserQuestion, last.id.GetOr(""));
    }
  }

  lemma ClaudeOpsShort(e: Claude.ClaudeEvent)
    ensures forall i :: 0 <= i < |Claude.Ops(e)| ==> OpShort(Claude.Ops(e)[i])
  {
    match e
    case User(_, outcomes, _, _) => ClaudeBatching.OutcomeOpsAnswer(outcomes);
    case Assistant(_, calls) => CallOpsShort(calls);
    case _ =>
  }

  lemma {:induction false} ClaudeFoldShort(l: Loop, events: seq<Claude.ClaudeEvent>)
    requires LoopShort(l)
    ensures LoopShort(Claude.Fold(l, events))
  {
    hide CoreShort, PendingShort, Claude.Note, Claude.Ops, OpShort;
    if events != [] {
      var n := |events| - 1;
      ClaudeFoldShort(l, events[..n]);
      var m := Claude.Fold(l, events[..n]);
      ClaudeNoteShort(m.snap, events[n]);
      ClaudeOpsShort(events[n]);
      ApplyAllShort(m.open, Claude.Ops(events[n]));
    }
  }

  /** Whatever a batch holds, reducing it from a bounded snapshot gives a bounded snapshot. */
  lemma ClaudeStaysShort(key: string, events: seq<Claude.ClaudeEvent>, initial: Option<Snapshot>)
    requires SoundInitial(initial) && (initial.Some? ==> Short(initial.value))
    ensures Short(Claude.Reduce(key, events, initial)) && Sound(Claude.Reduce(key, events, initial))
  {
    hide Short, LoopShort, Close, SoundLoop, Bounded;
    FirstShort(Claude.SOURCE, key);
    var start := Claude.Start(key, initial);
    StartShort(start.snap);
    ClaudeFoldShort(start, events);
    ClaudeBatching.StartSound(key, initial);
    ClaudeBatching.FoldSound(start, events);
    ClaudeBatching.FinishSound(Claude.Fold(start, events));
    LoopBounded(Claude.Fold(start, events));
    CloseShort(Claude.Fold(start, events), AskUserQuestion);
  }

  lemma LoopBounded(l: Loop)
    requires SoundLoop(l)
    ensures Bounded(l.open)
  {
  }

  // ----- The Codex fold -----

  lemma CodexCallShort(s: Snapshot, c: Codex.FunctionCallRecord, taken: bool)
    requires CoreShort(s)
    ensures CoreShort(Codex.NoteCall(s, c, taken))
  {
    hide SanitizeText, AppendRecent, TaskCollection, RecentShort, TasksShort, WithUnknown, StructuralClaim, ClaimShort,
         Codex.BaseName;
    if !Codex.HasName(c) {
      UnknownCoreShort(s, CodexToolName);
    } else {
      RecentAppends(s.recent, Codex.CallActivity(c.name.value, c.detail), Exact, FunctionCall, c.id);
      StructuralShort(TURN_OPEN, FunctionCall, None);
      StructuralShort(TURN_AWAITING, RequestUserInput, None);
      CollectionShort(c.plan, UpdatePlan);
    }
  }

  lemma CodexHumanShort(s: Snapshot, text: string, request: string)
    requires CoreShort(s)
    ensures CoreShort(Codex.NoteHuman(s, text, request))
  {
    hide AppendRecent, RecentShort, TasksShort, StructuralClaim, ExactClaim;
    StructuralShort(request, HumanMessage, None);
    StructuralShort(TURN_OPEN, HumanMessage, None);
    RecentAppends(s.recent, "Human: " + request, Exact, HumanMessage, None);
  }

  lemma CodexOutputShort(s: Snapshot, id: Option<string>, output: string)
    requires CoreShort(s)
    ensures CoreShort(Codex.NoteOutput(s, id, output))
  {
    hide FoldRecentResult, RecentShort, TasksShort, StructuralClaim, ClaimShort;
    RecentFolds(s.recent, output, FunctionCallOutput, id);
    StructuralShort(TURN_OPEN, FunctionCallOutput, None);
  }

  lemma CodexTurnEndShort(s: Snapshot, aborted: bool)
    requires CoreShort(s)
    ensures CoreShort(Codex.NoteTurnEnd(s, aborted))
  {
    hide AppendRecent, RecentShort, TasksShort, StructuralClaim;
    var shown := if aborted then TURN_ABORTED else TURN_RETURNED;
    RecentAppends(s.recent, shown, Structural, TurnBoundary, None);
    StructuralShort(shown, TurnBoundary, None);
  }

  lemma FailureClaimShort(f: Codex.Failure)
    ensures ClaimShort(Codex.FailureClaim(f))
  {
    hide StructuralClaim, ExactClaim, Decimal, ClaimShort;
    StructuralShort("Command exited " + Decimal(f.exitCode.GetOr(0)) + " this turn", ExecCommandEnd, None);
    StructuralShort("Command status failed this turn", ExecCommandEnd, None);
    StructuralShort("Patch failed this turn", PatchApplyEnd, None);
    StructuralShort(f.detail.GetOr(""), SourceError, None);
    StructuralShort("Source error this turn", SourceError, None);
  }

  lemma CodexFailureShort(s: Snapshot, f: Codex.Failure)
    requires CoreShort(s)
    ensures CoreShort(Codex.NoteFailure(s, f))
  {
    hide AppendRecent, RecentShort, TasksShort, Codex.FailureClaim, ClaimShort;
    FailureClaimShort(f);
    var claim := Codex.FailureClaim(f);
    RecentAppends(s.recent, claim.text.GetOr(""), claim.provenance, claim.kind.GetOr(SourceError), None);
  }

  lemma CodexCompactShort(s: Snapshot)
    requires CoreShort(s)
    ensures CoreShort(Codex.Compact(s))
  {
    hide AppendRecent, StructuralClaim, RecentShort, TasksShort, ClaimShort;
    StructuralShort("Context compacted", Compacted, None);
    RecentAppends(s.recent, "Context compacted", Structural, Compacted, None);
  }

  lemma CodexSaidShort(s: Snapshot, said: string)
    requires CoreShort(s)
    ensures CoreShort(s.(recent := AppendRecent(s.recent, "Agent: " + said, Exact, AgentMessage, None)))
  {
    hide AppendRecent, RecentShort, TasksShort, ClaimShort;
    RecentAppends(s.recent, "Agent: " + said, Exact, AgentMessage, None);
  }

  lemma UnsupportedShort(s: Snapshot)
    requires CoreShort(s)
    ensures CoreShort(Codex.NoteUnsupported(s))
  {
    hide AppendRecent, RecentShort, TasksShort, ClaimShort;
    RecentAppends(s.recent, "Unsupported source event", Unknown, Unrecognized, None);
  }

  lemma CodexNoteShort(s: Snapshot, e: Codex.CodexEvent, taken: bool)
    requires CoreShort(s)
    ensures CoreShort(Codex.Note(s, e, taken))
  {
    hide CoreShort, WithUnknown, AppendRecent, Codex.Compact, Codex.NoteHuman, Codex.NoteCall, Codex.NoteOutput,
         Codex.NoteTurnEnd, Codex.NoteFailure, Codex.NoteUnsupported;
    match e
    case Undecodable => UnknownCoreShort(s, CodexPayload);
    case Compaction => CodexCompactShort(s);
    case AgentSaid(said) => CodexSaidShort(s, said);
    case HumanSaid(text, request) => CodexHumanShort(s, text, request);
    case OtherMessage =>
    case Call(call) => CodexCallShort(s, call, taken);
    case Output(id, output) => CodexOutputShort(s, id, output);
    case TurnEnd(aborted) => CodexTurnEndShort(s, aborted);
    case Failed(failure) => CodexFailureShort(s, failure);
    case Unsupported => UnsupportedShort(s);
    case Bookkeeping =>
  }

  lemma AdvanceShort(o: Open, e: Codex.CodexEvent)
    requires PendingShort(o.pending)
    ensures PendingShort(Codex.Advance(o, e).pending)
  {
    hide PendingShort, ClaimsShort, Apply, QuestionClaims, Codex.BaseName;
    if e.Call? { ClaimedShort(e.call.questions, RequestUserInput, e.call.id.GetOr("")); }
    if Codex.Op(e).Some? { ApplyShort(o, Codex.Op(e).value); }
  }

  lemma {:induction false} CodexFoldShort(l: Loop, events: seq<Codex.CodexEvent>)
    requires LoopShort(l)
    ensures LoopShort(Codex.Fold(l, events))
  {
    hide CoreShort, PendingShort, Codex.Note, Codex.Advance, Codex.Taken;
    if events != [] {
      var n := |events| - 1;
      CodexFoldShort(l, events[..n]);
      var m := Codex.Fold(l, events[..n]);
      CodexNoteShort(m.snap, events[n], Codex.Taken(m.open, events[n]));
      AdvanceShort(m.open, events[n]);
    }
  }

  lemma CodexStaysShort(key: string, events: seq<Codex.CodexEvent>, initial: Option<Snapshot>)
    requires SoundInitial(initial) && (initial.Some? ==> Short(initial.value))
    ensures Short(Codex.Reduce(key, events, initial)) && Sound(Codex.Reduce(key, events, initial))
  {
    hide Short, LoopShort, Bounded;
    FirstShort(Codex.SOURCE, key);
    var start := Codex.Start(key, initial);
    StartShort(start.snap);
    CodexFoldShort(start, events);
    CodexBatching.StartSound(key, initial);
    CodexBatching.FoldSound(start, events);
    LoopBounded(Codex.Fold(start, events));
    CloseShort(Codex.Fold(start, events), RequestUserInput);
    ClosedSound(Codex.Fold(start, events), RequestUserInput);
  }

  lemma ClosedSound(l: Loop, kind: Kind)
    requires SoundLoop(l)
    ensures Sound(Close(l, kind))
  {
  }

  // ----- Everything the updater ever shows -----

  predicate Held(s: Snapshot) {
    Short(s) && Sound(s)
  }

  lemma ReducersKeepShort(key: string, xs: seq<Claude.ClaudeEvent>, ys: seq<Codex.CodexEvent>,
                          initial: Option<Snapshot>)
    requires initial.Some? ==> Held(initial.value)
    ensures Held(Claude.Reduce(key, xs, initial)) && Held(Codex.Reduce(key, ys, initial))
  {
    hide Short, Sound, Claude.Reduce, Codex.Reduce;
    ClaudeStaysShort(key, xs, initial);
    CodexStaysShort(key, ys, initial);
  }

  lemma HeldViews(r: Runtime)
    requires Held(r.current)
    ensures Short(View(r))
  {
    hide Short, WithUnknown;
    UnknownShort(r.current, Malformed(r.malformed));
  }

  /** For every run of file contents, every snapshot the updater shows of either source is bounded. */
  lemma ObservedShort(key: string, files: seq<seq<byte>>, claude: Tail.Decoder<Claude.ClaudeEvent>,
                      codex: Tail.Decoder<Codex.CodexEvent>)
    ensures Short(View(Observed(files, claude, ClaudeReduction(key))))
    ensures Short(View(Observed(files, codex, CodexReduction(key))))
  {
    hide Held, Short, View, Claude.Reduce, Codex.Reduce, Observed;
    forall events, initial: Option<Snapshot> | initial.Some? ==> Held(initial.value)
      ensures Held(Claude.Reduce(key, events, initial))
    {
      ReducersKeepShort(key, events, [], initial);
    }
    forall events, initial: Option<Snapshot> | initial.Some? ==> Held(initial.value)
      ensures Held(Codex.Reduce(key, events, initial))
    {
      ReducersKeepShort(key, [], events, initial);
    }
    ObservedKeeps(files, claude, ClaudeReduction(key), s => Held(s));
    ObservedKeeps(files, codex, CodexReduction(key), s => Held(s));
    HeldViews(Observed(files, claude, ClaudeReduction(key)));
    HeldViews(Observed(files, codex, CodexReduction(key)));
  }
}
