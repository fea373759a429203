/** What a Codex rollout says, read directly off its events: which question calls are open, and what
    the last event to speak about the command, the turn, the request and the plan makes of them. */
module CodexMeaning {
  import opened Text
  import opened LastWord
  import opened SummaryModel
  import opened OpenQuestions
  import opened QuestionMeaning
  import opened ToolInputs
  import opened ReducerLoop
  import opened CodexReducer

  type Rollout = seq<CodexEvent>

  // ----- Trust -----

  /** After an undecodable event or a call without a name nothing in the snapshot can be trusted. */
  predicate Breaks(e: CodexEvent) {
    e.Undecodable? || (e.Call? && (e.call.name.None? || e.call.name.value == ""))
  }

  predicate Trustworthy(events: Rollout) {
    forall i :: 0 <= i < |events| ==> !Breaks(events[i])
  }

  // ----- Questions -----

  /** `base` is what follows the last dot of `name`, or all of it. */
  predicate HasBase(name: string, base: string) {
    && '.' !in base && |base| <= |name| && name[|name| - |base|..] == base
    && (|base| == |name| || name[|name| - |base| - 1] == '.')
  }

  lemma {:induction false} BaseNameExactly(name: string, base: string)
    ensures BaseName(name) == base <==> HasBase(name, base)
  {
    var n := |name| - 1;
    assert HasBase(name, base) && base != "" ==> name[|name| - |base|..][|base| - 1] == name[n];
    if name != "" && name[n] != '.' && base != "" && base[|base| - 1] == name[n] {
      var short := base[..|base| - 1];
      assert base == short + [name[n]];
      BaseNameExactly(name[..n], short);
      if |base| <= |name| {
        assert name[|name| - |base|..] == name[..n][n - |short|..] + [name[n]];
      }
    }
  }

  predicate IsQuestionCall(e: CodexEvent) {
    e.Call? && e.call.name.Some? && HasBase(e.call.name.value, "request_user_input")
  }

  predicate IsPlanCall(e: CodexEvent) {
    e.Call? && e.call.name.Some? && HasBase(e.call.name.value, "update_plan")
  }

  /** A question call asks under its id; without one it is not well formed. */
  function AskOf(c: FunctionCallRecord): QuestionOp {
    if c.id.Some? && c.id.value != "" then Ask(c.id, Asked(c.questions, RequestUserInput, c.id.value))
    else Ask(None, None)
  }

  function QuestionOpsOf(events: Rollout): Ops {
    if events == [] then []
    else
      var e := events[|events| - 1];
      QuestionOpsOf(events[..|events| - 1]) +
      if IsQuestionCall(e) then [AskOf(e.call)]
      else if e.Output? && e.id.Some? then [Answer(e.id.value)]
      else if e.TurnEnd? then [Boundary]
      else []
  }

  /** The question call `e` is well formed and leaves no more than 32 questions open. */
  ghost predicate TakesUp(before: Rollout, e: CodexEvent) {
    IsQuestionCall(e) && TakenUp(QuestionOpsOf(before) + [AskOf(e.call)], |QuestionOpsOf(before)|)
  }

  lemma OpIs(e: CodexEvent)
    ensures Op(e) == if IsQuestionCall(e) then Some(AskOf(e.call))
                     else if e.Output? && e.id.Some? then Some(Answer(e.id.value))
                     else if e.TurnEnd? then Some(Boundary) else None
  {
    hide QuestionClaims, BaseName, HasBase, Asked;
    if e.Call? && e.call.name.Some? { BaseNameExactly(e.call.name.value, "request_user_input"); }
    if e.Call? && e.call.id.Some? { QuestionsAskedExactly(e.call.questions, RequestUserInput, e.call.id.value); }
  }

  lemma {:induction false} FoldOpen(key: string, events: Rollout)
    ensures Fold(Start(key, None), events).open == ApplyAll(Open([], false), QuestionOpsOf(events))
  {
    hide Note, Op, SanitizeText;
    if events == [] {
      assert GroupFrom([], []) == [];
    } else {
      var n := |events| - 1;
      FoldOpen(key, events[..n]);
      OpIs(events[n]);
      var ops := QuestionOpsOf(events[..n]);
      if Op(events[n]).Some? {
        ApplyAllConcat(Open([], false), ops, [Op(events[n]).value]);
        ApplySingle(ApplyAll(Open([], false), ops), Op(events[n]).value);
      } else {
        assert QuestionOpsOf(events) == ops;
      }
    }
  }

  lemma ApplySingle(o: Open, op: QuestionOp)
    ensures ApplyAll(o, [op]) == Apply(o, op)
  {
    assert [op][..0] == [];
  }

  lemma TakenIs(key: string, before: Rollout, e: CodexEvent)
    ensures Taken(Fold(Start(key, None), before).open, e) <==> TakesUp(before, e)
  {
    hide Fold, Op, Accepts, HasBase, AskOf, TakenUp;
    OpIs(e);
    if IsQuestionCall(e) {
      var ops := QuestionOpsOf(before);
      var all := ops + [AskOf(e.call)];
      FoldOpen(key, before);
      assert all[..|ops|] == ops && all[|ops|] == AskOf(e.call);
      OpenExactly(all, |ops|);
      TakenIsAccepted(all, |ops|, ApplyAll(Open([], false), ops));
    } else {
      NotAsked(Fold(Start(key, None), before).open, e);
    }
  }

  lemma NotAsked(o: Open, e: CodexEvent)
    requires !IsQuestionCall(e)
    ensures !Taken(o, e)
  {
    hide Op;
    OpIs(e);
  }

  // ----- The last event to write a field -----

  /** A human message of which nothing is left once its attachment markers are stripped. */
  predicate AttachmentOnly(e: CodexEvent) {
    e.HumanSaid? && e.request != e.text && SanitizeText(e.request) == ""
  }

  /** One case per kind of failure. */
  function FailureShown(f: Failure): Claim {
    if f.commandEnd && f.exitCode.Some? && f.exitCode.value != 0 then
      State(SanitizeText("Command exited " + Decimal(f.exitCode.value) + " this turn"), ExecCommandEnd, None)
    else if f.commandEnd && f.statusFailed then State("Command status failed this turn", ExecCommandEnd, None)
    else if f.patchEnd && f.patchFailed then State("Patch failed this turn", PatchApplyEnd, None)
    else if f.detail.None? || f.detail.value == "" then State("Source error this turn", SourceError, None)
    else Said(f.detail.value, SourceError, None)
  }

  /** A failure shows itself; the end of a turn and a message of attachments alone show nothing. */
  function CommandBy(e: CodexEvent): Option<Claim> {
    if e.Failed? then Some(FailureShown(e.failure))
    else if e.TurnEnd? then Some(Known(TurnBoundary, None))
    else if AttachmentOnly(e) then Some(Known(HumanMessage, None))
    else None
  }

  /** The end of a turn hands it back; a question call that is taken up awaits its answer; any other
      call, an output and a human message leave the turn open. */
  ghost function TurnBy(before: Rollout, e: CodexEvent): Option<Claim> {
    if e.TurnEnd? then
      Some(State(if e.aborted then "Turn aborted" else "Turn returned to human", TurnBoundary, None))
    else if TakesUp(before, e) then Some(State("Awaiting explicit answer", RequestUserInput, None))
    else if e.Call? then Some(State("Agent turn open", FunctionCall, None))
    else if e.Output? then Some(State("Agent turn open", FunctionCallOutput, None))
    else if e.HumanSaid? then Some(State("Agent turn open", HumanMessage, None))
    else None
  }

  function RequestBy(e: CodexEvent): Option<Claim> {
    if e.HumanSaid? && !AttachmentOnly(e) then Some(Said(e.request, HumanMessage, None)) else None
  }

  function CompactionBy(e: CodexEvent): Option<Claim> {
    if e.Compaction? then Some(State("Context compacted", Compacted, None)) else None
  }

  ghost function PlanBy(e: CodexEvent): Option<Collection<TaskItem>> {
    if IsPlanCall(e) then Some(ShownPlan(e.call.plan, UpdatePlan)) else None
  }

  function Commands(events: Rollout): seq<Option<Claim>> {
    seq(|events|, i requires 0 <= i < |events| => CommandBy(events[i]))
  }

  ghost function Turns(events: Rollout): seq<Option<Claim>> {
    seq(|events|, i requires 0 <= i < |events| => TurnBy(events[..i], events[i]))
  }

  function Requests(events: Rollout): seq<Option<Claim>> {
    seq(|events|, i requires 0 <= i < |events| => RequestBy(events[i]))
  }

  function Compactions(events: Rollout): seq<Option<Claim>> {
    seq(|events|, i requires 0 <= i < |events| => CompactionBy(events[i]))
  }

  ghost function Plans(events: Rollout): seq<Option<Collection<TaskItem>>> {
    seq(|events|, i requires 0 <= i < |events| => PlanBy(events[i]))
  }

  lemma WrittenNext(events: Rollout)
    requires events != []
    ensures var n := |events| - 1;
            && Commands(events) == Commands(events[..n]) + [CommandBy(events[n])]
            && Turns(events) == Turns(events[..n]) + [TurnBy(events[..n], events[n])]
            && Requests(events) == Requests(events[..n]) + [RequestBy(events[n])]
            && Compactions(events) == Compactions(events[..n]) + [CompactionBy(events[n])]
            && Plans(events) == Plans(events[..n]) + [PlanBy(events[n])]
  {
    hide CommandBy, TurnBy, RequestBy, CompactionBy, PlanBy;
    var n := |events| - 1;
    forall i | 0 <= i < n ensures events[..n][..i] == events[..i] && events[..n][i] == events[i] {
    }
  }

  // ----- One event -----

  lemma FailureIs(f: Failure)
    ensures FailureClaim(f) == FailureShown(f)
  {
    hide SanitizeText, Decimal;
    StatusFailedShown();
    PatchFailedShown();
    SourceErrorShown();
    SaidIs(f.detail.GetOr(""), SourceError, None);
  }

  lemma NoteCommand(s: Snapshot, e: CodexEvent, taken: bool)
    requires !Breaks(e)
    ensures Note(s, e, taken).command == CommandBy(e).GetOr(s.command)
    ensures Note(s, e, taken).request == RequestBy(e).GetOr(s.request)
    ensures Note(s, e, taken).compaction == CompactionBy(e).GetOr(s.compaction)
    ensures Note(s, e, taken).integrity == s.integrity && Note(s, e, taken).background == s.background
  {
    hide SanitizeText, AppendRecent, FoldRecentResult, BaseName, TaskCollection, FailureClaim, FailureShown;
    CompactedShown();
    if e.Failed? { FailureIs(e.failure); }
    if e.HumanSaid? { SaidIs(e.request, HumanMessage, None); }
  }

  lemma NoteTurn(s: Snapshot, e: CodexEvent, before: Rollout)
    requires !Breaks(e)
    ensures Note(s, e, TakesUp(before, e)).turn == TurnBy(before, e).GetOr(s.turn)
  {
    hide SanitizeText, AppendRecent, FoldRecentResult, BaseName, TaskCollection, FailureClaim, HasBase, TakenUp, AskOf;
    FixedTextsShown();
    if e.Call? {
      BaseNameExactly(e.call.name.value, "request_user_input");
      BaseNameExactly(e.call.name.value, "update_plan");
      assert "request_user_input"[0] != "update_plan"[0];
    }
  }

  lemma NotePlan(s: Snapshot, e: CodexEvent, taken: bool)
    requires !Breaks(e)
    ensures Note(s, e, taken).tasks == PlanBy(e).GetOr(s.tasks)
  {
    hide SanitizeText, AppendRecent, FoldRecentResult, BaseName, TaskCollection, FailureClaim, HasBase, ShownPlan;
    if e.Call? {
      BaseNameExactly(e.call.name.value, "update_plan");
      PlanShownExactly(e.call.plan, UpdatePlan);
    }
  }

  lemma BrokenStays(s: Snapshot, e: CodexEvent, taken: bool)
    ensures Breaks(e) || s.integrity == Unknown ==> Note(s, e, taken).integrity == Unknown
  {
    hide SanitizeText, AppendRecent, FoldRecentResult, BaseName, TaskCollection, FailureClaim;
  }

  // ----- Whole rollouts -----

  /** Every field is what the last event to write it makes of it. */
  ghost predicate Means(events: Rollout, s: Snapshot) {
    && s.background == {}
    && Latest(s.command, Known(EventStream, None), Commands(events))
    && Latest(s.turn, UnknownClaim(NoTurnBoundary), Turns(events))
    && Latest(s.request, UnknownClaim(NoHumanRequest), Requests(events))
    && Latest(s.compaction, UnknownClaim(NoCompaction), Compactions(events))
    && Latest(s.tasks, Collection([], Unknown, None, Some(NoPlan)), Plans(events))
  }

  lemma MeansNext(events: Rollout, s: Snapshot)
    requires events != [] && Means(events[..|events| - 1], s) && !Breaks(events[|events| - 1])
    ensures var n := |events| - 1; Means(events, Note(s, events[n], TakesUp(events[..n], events[n])))
  {
    hide Note, Commands, Turns, Requests, Compactions, Plans, Breaks, Latest, TakesUp, CommandBy, TurnBy, RequestBy,
      CompactionBy, PlanBy;
    var n := |events| - 1;
    var before, e := events[..n], events[n];
    var taken := TakesUp(before, e);
    NoteCommand(s, e, taken);
    NoteTurn(s, e, before);
    NotePlan(s, e, taken);
    WrittenNext(events);
    LatestNext(s.command, Known(EventStream, None), Commands(before), CommandBy(e));
    LatestNext(s.turn, UnknownClaim(NoTurnBoundary), Turns(before), TurnBy(before, e));
    LatestNext(s.request, UnknownClaim(NoHumanRequest), Requests(before), RequestBy(e));
    LatestNext(s.compaction, UnknownClaim(NoCompaction), Compactions(before), CompactionBy(e));
    LatestNext(s.tasks, Collection([], Unknown, None, Some(NoPlan)), Plans(before), PlanBy(e));
  }

  lemma {:induction false} FoldMeans(key: string, events: Rollout)
    ensures var s := Fold(Start(key, None), events).snap;
            && (s.integrity != Unknown <==> Trustworthy(events))
            && (Trustworthy(events) ==> Means(events, s))
  {
    hide Note, Means, Breaks, Taken, TakesUp;
    if events == [] {
      StartMeans(key);
    } else {
      var n := |events| - 1;
      var l := Fold(Start(key, None), events[..n]);
      FoldMeans(key, events[..n]);
      TakenIs(key, events[..n], events[n]);
      assert Trustworthy(events) <==> Trustworthy(events[..n]) && !Breaks(events[n]) by {
        assert forall i :: 0 <= i < n ==> events[..n][i] == events[i];
      }
      BrokenStays(l.snap, events[n], Taken(l.open, events[n]));
      if Trustworthy(events) {
        MeansNext(events, l.snap);
        NoteCommand(l.snap, events[n], Taken(l.open, events[n]));
      }
    }
  }

  lemma StartMeans(key: string)
    ensures var s := Fold(Start(key, None), []).snap; s.integrity != Unknown && Trustworthy([]) && Means([], s)
  {
  }

  lemma FinishKeeps(l: Loop)
    ensures (Finish(l).integrity == Unknown) == (l.snap.integrity == Unknown)
    ensures l.snap.integrity != Unknown ==> Finish(l) == l.snap.(questions := Shown(l.open, RequestUserInput))
  {
  }

  lemma MeansSame(events: Rollout, s: Snapshot, t: Snapshot)
    requires Means(events, s) && t == s.(questions := t.questions)
    ensures Means(events, t)
  {
    hide Latest;
  }

  /** What a whole rollout leads to. */
  lemma RolloutMeans(key: string, events: Rollout)
    ensures var s := Reduce(key, events, None);
            && (s.integrity != Unknown <==> Trustworthy(events))
            && (Trustworthy(events) ==>
              Means(events, s) && ShowsQuestions(QuestionOpsOf(events), RequestUserInput, s.questions))
  {
    hide Means, Trustworthy, Fold, Start, Finish, ShowsQuestions;
    FoldMeans(key, events);
    var l := Fold(Start(key, None), events);
    FinishKeeps(l);
    FoldOpen(key, events);
    QuestionsShown(QuestionOpsOf(events), RequestUserInput);
    if l.snap.integrity != Unknown { MeansSame(events, l.snap, Finish(l)); }
  }
}
