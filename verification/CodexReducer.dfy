/** The Codex fold of `summary/codex.py`. Unlike the Claude fold, the turn it shows depends on
    whether a question call was taken up, and a turn boundary clears the open questions. */
module CodexReducer {
  import opened Text
  import opened SummaryModel
  import opened OpenQuestions
  import opened ReducerLoop

  const SOURCE := "codex"
  const ASK_TOOL := "request_user_input"
  const PLAN_TOOL := "update_plan"

  /** What an `error` event carries: a command end, a patch end, or anything else with a detail. */
  datatype Failure = Failure(commandEnd: bool, exitCode: Option<int>, statusFailed: bool, patchEnd: bool,
                             patchFailed: bool, detail: Option<string>)

  datatype FunctionCallRecord = FunctionCallRecord(name: Option<string>, id: Option<string>, detail: string, plan: Plan,
                                                   questions: Questions)

  /** One canonical event as the reducer reads it. A human message carries its text before and
      after the image-attachment markers are stripped. */
  datatype CodexEvent =
    | Undecodable
    | Compaction
    | AgentSaid(said: string)
    | HumanSaid(text: string, request: string)
    | OtherMessage
    | Call(call: FunctionCallRecord)
    | Output(id: Option<string>, output: string)
    | TurnEnd(aborted: bool)
    | Failed(failure: Failure)
    | Unsupported
    | Bookkeeping

  /** `name.rsplit(".", 1)[-1]`. */
  function BaseName(name: string): string {
    if name == "" || name[|name| - 1] == '.' then "" else BaseName(name[..|name| - 1]) + [name[|name| - 1]]
  }

  function TurnOpen(kind: Kind): Claim {
    StructuralClaim(TURN_OPEN, kind, None)
  }

  function Compact(s: Snapshot): Snapshot {
    var recent := if s.recent != [] && s.recent[|s.recent| - 1].kind == Compacted then s.recent
                  else AppendRecent(s.recent, "Context compacted", Structural, Compacted, None);
    s.(compaction := StructuralClaim("Context compacted", Compacted, None), recent := recent)
  }

  function NoteHuman(s: Snapshot, text: string, request: string): Snapshot {
    var claim := ExactClaim(request, HumanMessage, None);
    if claim.provenance == Unknown && request != text then
      s.(command := Quiet(HumanMessage, None), turn := TurnOpen(HumanMessage))
    else
      s.(request := claim, recent := AppendRecent(s.recent, "Human: " + request, Exact, HumanMessage, None),
         turn := TurnOpen(HumanMessage))
  }

  function CallActivity(name: string, detail: string): string {
    var rendered := SanitizeText(detail);
    "Tool " + name + if rendered != "" then ": " + rendered else ""
  }

  predicate IsAsk(c: FunctionCallRecord) {
    c.name.Some? && BaseName(c.name.value) == ASK_TOOL
  }

  /** A usable name; an empty one counts as none. */
  predicate HasName(c: FunctionCallRecord) {
    c.name.Some? && c.name.value != ""
  }

  function NoteCall(s: Snapshot, c: FunctionCallRecord, taken: bool): Snapshot {
    if !HasName(c) then WithUnknown(s, CodexToolName)
    else
      var s' := s.(recent := AppendRecent(s.recent, CallActivity(c.name.value, c.detail), Exact, FunctionCall, c.id),
                   turn := TurnOpen(FunctionCall));
      if BaseName(c.name.value) == PLAN_TOOL then s'.(tasks := TaskCollection(c.plan, UpdatePlan))
      else if taken then s'.(turn := StructuralClaim(TURN_AWAITING, RequestUserInput, None))
      else s'
  }

  function NoteOutput(s: Snapshot, id: Option<string>, output: string): Snapshot {
    s.(recent := FoldRecentResult(s.recent, output, FunctionCallOutput, id), turn := TurnOpen(FunctionCallOutput))
  }

  function NoteTurnEnd(s: Snapshot, aborted: bool): Snapshot {
    var shown := if aborted then TURN_ABORTED else TURN_RETURNED;
    s.(recent := AppendRecent(s.recent, shown, Structural, TurnBoundary, None),
       command := Quiet(TurnBoundary, None), turn := StructuralClaim(shown, TurnBoundary, None))
  }

  function FailureClaim(f: Failure): Claim {
    if f.commandEnd && f.exitCode.Some? && f.exitCode.value != 0 then
      StructuralClaim("Command exited " + Decimal(f.exitCode.value) + " this turn", ExecCommandEnd, None)
    else if f.commandEnd && f.statusFailed then StructuralClaim("Command status failed this turn", ExecCommandEnd, None)
    else if f.patchEnd && f.patchFailed then StructuralClaim("Patch failed this turn", PatchApplyEnd, None)
    else if f.detail.GetOr("") != "" then ExactClaim(f.detail.value, SourceError, None)
    else StructuralClaim("Source error this turn", SourceError, None)
  }

  function NoteFailure(s: Snapshot, f: Failure): Snapshot {
    var claim := FailureClaim(f);
    s.(command := claim,
       recent := AppendRecent(s.recent, claim.text.GetOr(""), claim.provenance, claim.kind.GetOr(SourceError), None))
  }

  function NoteUnsupported(s: Snapshot): Snapshot {
    s.(recent := AppendRecent(s.recent, "Unsupported source event", Unknown, Unrecognized, None),
       reasons := AppendReason(s.reasons, CodexUnsupportedEvent))
  }

  function Note(s: Snapshot, e: CodexEvent, taken: bool): Snapshot {
    match e
    case Undecodable => WithUnknown(s, CodexPayload)
    case Compaction => Compact(s)
    case AgentSaid(said) => s.(recent := AppendRecent(s.recent, "Agent: " + said, Exact, AgentMessage, None))
    case HumanSaid(text, request) => NoteHuman(s, text, request)
    case OtherMessage => s
    case Call(call) => NoteCall(s, call, taken)
    case Output(id, output) => NoteOutput(s, id, output)
    case TurnEnd(aborted) => NoteTurnEnd(s, aborted)
    case Failed(failure) => NoteFailure(s, failure)
    case Unsupported => NoteUnsupported(s)
    case Bookkeeping => s
  }

  function CallOp(c: FunctionCallRecord): QuestionOp {
    if c.id.None? || c.id.value == "" then Ask(None, None)
    else Ask(c.id, QuestionClaims(c.questions, RequestUserInput, c.id.value))
  }

  /** What one event does to the open questions, if anything. */
  function Op(e: CodexEvent): Option<QuestionOp> {
    match e
    case Call(c) => if IsAsk(c) then Some(CallOp(c)) else None
    case Output(id, _) => if id.Some? then Some(Answer(id.value)) else None
    case TurnEnd(_) => Some(Boundary)
    case _ => None
  }

  function Advance(o: Open, e: CodexEvent): Open {
    if Op(e).Some? then Apply(o, Op(e).value) else o
  }

  /** Whether the event is a question call that is taken up. */
  predicate Taken(o: Open, e: CodexEvent) {
    Op(e).Some? && Accepts(o, Op(e).value)
  }

  function Step(l: Loop, e: CodexEvent): Loop {
    Loop(Note(l.snap, e, Taken(l.open, e)), Advance(l.open, e))
  }

  function Fold(l: Loop, events: seq<CodexEvent>): Loop {
    if events == [] then l else Step(Fold(l, events[..|events| - 1]), events[|events| - 1])
  }

  function Start(key: string, initial: Option<Snapshot>): Loop {
    var s := if initial.Some? then initial.value else StartingSnapshot(SOURCE, key);
    Loop(s, Rebuilt(s))
  }

  function Finish(l: Loop): Snapshot {
    Close(l, RequestUserInput)
  }

  /** `reduce_codex_events(key, events, initial=initial)`. */
  function Reduce(key: string, events: seq<CodexEvent>, initial: Option<Snapshot>): Snapshot {
    Finish(Fold(Start(key, initial), events))
  }

  lemma NoteTaken(s: Snapshot, c: FunctionCallRecord)
    requires IsAsk(c)
    ensures NoteCall(s, c, true)
            == NoteCall(s, c, false).(turn := StructuralClaim(TURN_AWAITING, RequestUserInput, None))
  {
    assert ASK_TOOL[0] != PLAN_TOOL[0];
  }

  /** The branch of the loop for one function call. */
  method TakeCall(snapshot: Snapshot, pending: Pending, questionsUnknown: bool, call: FunctionCallRecord)
    returns (snapshot': Snapshot, pending': Pending, questionsUnknown': bool)
    ensures Loop(snapshot', Open(pending', questionsUnknown'))
            == Step(Loop(snapshot, Open(pending, questionsUnknown)), Call(call))
  {
    hide SanitizeText, AppendRecent, FoldRecentResult;
    pending', questionsUnknown' := pending, questionsUnknown;
    snapshot' := NoteCall(snapshot, call, false);
    if IsAsk(call) {
      NoteTaken(snapshot, call);
      var op := CallOp(call);
      if op.id.None? || op.claims.None? {
        questionsUnknown' := true;
      } else if |Flatten(pending)| + |op.claims.value| > MAX_COLLECTION_ITEMS {
        questionsUnknown' := true;
      } else {
        pending' := Put(pending, op.id.value, op.claims.value);
        snapshot' := snapshot'.(turn := StructuralClaim(TURN_AWAITING, RequestUserInput, None));
      }
    }
  }

  lemma StepHalves(l: Loop, e: CodexEvent)
    ensures !e.Call? ==> Step(l, e).snap == Note(l.snap, e, false)
    ensures Op(e).None? ==> Step(l, e).open == l.open
  {
  }

  /** The body of the loop. */
  method TakeEvent(before: Snapshot, pending: Pending, questionsUnknown: bool, event: CodexEvent)
    returns (snapshot: Snapshot, pending': Pending, questionsUnknown': bool)
    ensures Loop(snapshot, Open(pending', questionsUnknown'))
            == Step(Loop(before, Open(pending, questionsUnknown)), event)
  {
    snapshot, pending', questionsUnknown' := before, pending, questionsUnknown;
    hide SanitizeText, AppendRecent, AppendReason, FoldRecentResult;
    StepHalves(Loop(before, Open(pending, questionsUnknown)), event);
    match event {
      case Undecodable => snapshot := WithUnknown(snapshot, CodexPayload);
      case Compaction => snapshot := Compact(snapshot);
      case AgentSaid(said) =>
        snapshot := snapshot.(recent := AppendRecent(snapshot.recent, "Agent: " + said, Exact, AgentMessage, None));
      case HumanSaid(text, request) => snapshot := NoteHuman(snapshot, text, request);
      case OtherMessage =>
      case Call(call) => snapshot, pending', questionsUnknown' := TakeCall(snapshot, pending, questionsUnknown, call);
      case Output(id, output) =>
        if id.Some? { pending' := Pop(pending, id.value); }
        snapshot := NoteOutput(snapshot, id, output);
      case TurnEnd(aborted) =>
        pending', questionsUnknown' := [], false;
        snapshot := NoteTurnEnd(snapshot, aborted);
      case Failed(failure) => snapshot := NoteFailure(snapshot, failure);
      case Unsupported => snapshot := NoteUnsupported(snapshot);
      case Bookkeeping =>
    }
  }

  /** The reducer as the source runs it: one loop over rebinding locals. */
  method ReduceCodexEvents(key: string, events: seq<CodexEvent>, initial: Option<Snapshot>) returns (result: Snapshot)
    ensures result == Reduce(key, events, initial)
  {
    var snapshot := if initial.Some? then initial.value else StartingSnapshot(SOURCE, key);
    var pending, questionsUnknown := PendingQuestions(snapshot), snapshot.questions.provenance == Unknown;
    for i := 0 to |events|
      invariant Loop(snapshot, Open(pending, questionsUnknown)) == Fold(Start(key, initial), events[..i])
    {
      assert events[..i + 1][..i] == events[..i];
      snapshot, pending, questionsUnknown := TakeEvent(snapshot, pending, questionsUnknown, events[i]);
    }
    assert events[..|events|] == events;
    result := Finish(Loop(snapshot, Open(pending, questionsUnknown)));
  }

  lemma {:induction false} FoldConcat(l: Loop, xs: seq<CodexEvent>, ys: seq<CodexEvent>)
    ensures Fold(l, xs + ys) == Fold(Fold(l, xs), ys)
  {
    if ys == [] {
      assert xs + ys == xs;
    } else {
      assert (xs + ys)[..|xs + ys| - 1] == xs + ys[..|ys| - 1];
      FoldConcat(l, xs, ys[..|ys| - 1]);
    }
  }
}
