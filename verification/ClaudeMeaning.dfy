/** What a Claude Code transcript says, read directly off its records: which background tasks run, and
    what the last record to speak about the command, the turn and the request makes of them. */
module ClaudeMeaning {
  import opened Text
  import opened LastWord
  import opened SummaryModel
  import opened OpenQuestions
  import opened QuestionMeaning
  import opened ToolInputs
  import opened ReducerLoop
  import opened ClaudeReducer
  import ClaudeBatching

  type Transcript = seq<ClaudeEvent>

  // ----- Background tasks -----

  predicate Registers(e: ClaudeEvent, task: string) {
    e.User? && e.task == Some(task)
  }

  predicate Ends(e: ClaudeEvent, task: string) {
    e.Notification? && e.notice.Some? && e.notice.value.task == task
  }

  /** Registered, with no notice about it since. */
  ghost predicate Running(events: Transcript, task: string) {
    exists s :: 0 <= s < |events| && Registers(events[s], task) && forall n :: s < n < |events| ==>
        !Ends(events[n], task)
  }

  ghost function RunningTasks(events: Transcript): set<string> {
    set s | 0 <= s < |events| && events[s].User? && events[s].task.Some? && Running(events, events[s].task.value) ::
      events[s].task.value
  }

  lemma RunningIsMember(events: Transcript, task: string)
    ensures task in RunningTasks(events) <==> Running(events, task)
  {
    if Running(events, task) {
      var s :| 0 <= s < |events| && Registers(events[s], task) && forall n :: s < n < |events| ==>
          !Ends(events[n], task);
      assert events[s].task.value == task;
    }
  }

  lemma RunningNext(events: Transcript, task: string)
    requires events != []
    ensures var n := |events| - 1;
            Running(events, task) <==>
              Registers(events[n], task) || (Running(events[..n], task) && !Ends(events[n], task))
  {
    var n := |events| - 1;
    if s :| 0 <= s < |events| && Registers(events[s], task) && forall k :: s < k < |events| ==> !Ends(events[k], task) {
      if s < n {
        assert Registers(events[..n][s], task) && !Ends(events[n], task);
        assert forall k :: s < k < n ==> events[..n][k] == events[k];
      }
    }
    if Running(events[..n], task) && !Ends(events[n], task) {
      var s :| 0 <= s < n && Registers(events[..n][s], task) && forall k :: s < k < n ==> !Ends(events[..n][k], task);
      assert Registers(events[s], task);
      forall k | s < k < |events| ensures !Ends(events[k], task) {
        if k < n { assert events[..n][k] == events[k]; }
      }
    }
    if Registers(events[n], task) { assert !Ends(events[n], task); }
  }

  // ----- Trust -----

  predicate Nameless(c: ToolCall) {
    c.name.None? || c.name.value == ""
  }

  /** The records after which nothing in the snapshot can be trusted: an undecodable one, a call
      without a name, and the task that would be the thirty-third to run. */
  ghost predicate Breaks(before: Transcript, e: ClaudeEvent) {
    || e.Undecodable?
    || (e.Assistant? && exists c :: 0 <= c < |e.calls| && Nameless(e.calls[c]))
    || (e.User? && e.task.Some? && !Running(before, e.task.value) && |RunningTasks(before)| >= 32)
  }

  ghost predicate Trustworthy(events: Transcript) {
    forall i :: 0 <= i < |events| ==> !Breaks(events[..i], events[i])
  }

  lemma TrustworthyNext(events: Transcript)
    requires events != []
    ensures var n := |events| - 1;
            Trustworthy(events) <==> Trustworthy(events[..n]) && !Breaks(events[..n], events[n])
  {
    hide Breaks;
    var n := |events| - 1;
    forall i | 0 <= i < n ensures events[..n][..i] == events[..i] && events[..n][i] == events[i] {
    }
    assert Trustworthy(events) ==> Trustworthy(events[..n]);
  }

  // ----- What one record does to the fields it does not write -----

  lemma {:induction false} OutcomesKeep(s: Snapshot, outcomes: seq<ToolOutcome>)
    ensures var t := NoteOutcomes(s, outcomes);
            && t.background == s.background && t.request == s.request && t.tasks == s.tasks
            && t.compaction == s.compaction && t.integrity == s.integrity
            && (outcomes == [] ==> t.command == s.command && t.turn == s.turn)
  {
    hide SanitizeText, FoldRecentResult;
    if outcomes != [] { OutcomesKeep(s, outcomes[..|outcomes| - 1]); }
  }

  lemma {:induction false} CallsKeep(s: Snapshot, calls: seq<ToolCall>)
    requires forall c :: 0 <= c < |calls| ==> !Nameless(calls[c])
    ensures var t := NoteCalls(s, calls);
            && t.background == s.background && t.request == s.request && t.command == s.command && t.turn == s.turn
            && t.compaction == s.compaction && t.integrity == s.integrity
  {
    hide SanitizeText, AppendRecent, TaskCollection;
    if calls != [] { CallsKeep(s, calls[..|calls| - 1]); }
  }

  lemma {:induction false} CallsBreak(s: Snapshot, calls: seq<ToolCall>)
    ensures (exists c :: 0 <= c < |calls| && Nameless(calls[c])) || s.integrity == Unknown ==>
              NoteCalls(s, calls).integrity == Unknown
  {
    hide SanitizeText, AppendRecent, TaskCollection;
    if calls != [] { CallsBreak(s, calls[..|calls| - 1]); }
  }

  /** A record breaks trust exactly when it says so. */
  lemma NoteTrust(s: Snapshot, e: ClaudeEvent, before: Transcript)
    requires s.integrity != Unknown ==> s.background == RunningTasks(before)
    ensures Note(s, e).integrity != Unknown <==> s.integrity != Unknown && !Breaks(before, e)
  {
    hide SanitizeText, AppendRecent, RunningTasks, Running;
    ClaudeBatching.NoteTrusted(s, e);
    match e
    case User(task, outcomes, injected, text) =>
      var t := if task.Some? then RegisterTask(s, task.value) else s;
      OutcomesKeep(t, outcomes);
      if task.Some? { RunningIsMember(before, task.value); }
    case Assistant(said, calls) =>
      CallsBreak(NoteSaid(s, said), calls);
      if !exists c :: 0 <= c < |calls| && Nameless(calls[c]) { CallsKeep(NoteSaid(s, said), calls); }
    case _ =>
  }

  lemma NoteTasks(s: Snapshot, e: ClaudeEvent, before: Transcript)
    requires s.integrity != Unknown && s.background == RunningTasks(before) && !Breaks(before, e)
    ensures Note(s, e).background == RunningTasks(before + [e])
  {
    hide SanitizeText, AppendRecent, RunningTasks, Running;
    var all := before + [e];
    assert all[..|before|] == before;
    forall task ensures task in Note(s, e).background <==> task in RunningTasks(all) {
      RunningNext(all, task);
      RunningIsMember(all, task);
      RunningIsMember(before, task);
      if e.User? && e.task.Some? { RunningIsMember(before, e.task.value); }
      NoteTask(s, e, task);
    }
  }

  /** Membership of one task after a record that breaks nothing. */
  lemma NoteTask(s: Snapshot, e: ClaudeEvent, task: string)
    requires !e.Undecodable? && (e.Assistant? ==> forall c :: 0 <= c < |e.calls| ==> !Nameless(e.calls[c]))
    requires e.User? && e.task.Some? && e.task.value !in s.background ==> |s.background| < 32
    ensures task in Note(s, e).background <==> Registers(e, task) || (task in s.background && !Ends(e, task))
  {
    hide SanitizeText, AppendRecent;
    match e
    case User(t, outcomes, injected, text) => OutcomesKeep(if t.Some? then RegisterTask(s, t.value) else s, outcomes);
    case Assistant(said, calls) => CallsKeep(NoteSaid(s, said), calls);
    case _ =>
  }

  // ----- The last record to write a field -----

  predicate IsHuman(e: ClaudeEvent) {
    e.User? && e.outcomes == [] && !e.injected
  }

  predicate IsResult(e: ClaudeEvent) {
    e.User? && e.outcomes != []
  }

  /** A notice about a task that runs. */
  ghost predicate EndsRunning(before: Transcript, e: ClaudeEvent) {
    e.Notification? && e.notice.Some? && Running(before, e.notice.value.task)
  }

  ghost predicate WritesCommand(before: Transcript, e: ClaudeEvent) {
    IsHuman(e) || IsResult(e) || EndsRunning(before, e)
  }

  ghost predicate WritesTurn(before: Transcript, e: ClaudeEvent) {
    || IsHuman(e) || IsResult(e) || (e.User? && e.task.Some?) || EndsRunning(before, e)
    || (e.Assistant? && (e.calls != [] || (e.said != "" && RunningTasks(before) == {})))
  }

  function LastOutcome(e: ClaudeEvent): ToolOutcome
    requires IsResult(e)
  {
    e.outcomes[|e.outcomes| - 1]
  }

  /** A failed result shows its text; a task shows its status unless that is a success; a successful
      result and a new human message show nothing. */
  function CommandAfter(e: ClaudeEvent): Claim
    requires IsHuman(e) || IsResult(e) || (e.Notification? && e.notice.Some?)
  {
    if IsResult(e) then
      var o := LastOutcome(e);
      if o.failed then Said(if o.text == "" then "Tool failed this turn" else o.text, ToolResult, o.id)
      else Known(ToolResult, o.id)
    else if IsHuman(e) then Known(HumanMessage, None)
    else
      var n := e.notice.value;
      if n.status in {"completed", "succeeded", "success"} then Known(BackgroundTask, Some(n.task))
      else State(SanitizeText("Background task " + n.status), BackgroundTask, Some(n.task))
  }

  predicate AsksHuman(e: ClaudeEvent) {
    e.Assistant? && exists c :: 0 <= c < |e.calls| && e.calls[c].name == Some("AskUserQuestion")
  }

  /** The turn is returned by a final assistant message and by the end of the last task, awaits an
      answer after a question call, and is open in every other case. */
  ghost function TurnAfter(before: Transcript, e: ClaudeEvent): Claim
    requires WritesTurn(before, e)
  {
    if IsResult(e) then State("Agent turn open", ToolResult, None)
    else if IsHuman(e) then State("Agent turn open", HumanMessage, None)
    else if e.User? then State("Agent turn open", BackgroundTask, e.task)
    else if e.Notification? then
      State(if RunningTasks(before + [e]) == {} then "Turn returned to human" else "Agent turn open", BackgroundTask,
            Some(e.notice.value.task))
    else if e.calls == [] then State("Turn returned to human", AssistantFinal, None)
    else State(if AsksHuman(e) then "Awaiting explicit answer" else "Agent turn open", ToolUse, None)
  }

  // ----- One record -----

  lemma OutcomesWrite(s: Snapshot, e: ClaudeEvent)
    requires IsResult(e)
    ensures NoteOutcomes(s, e.outcomes).command == CommandAfter(e)
    ensures NoteOutcomes(s, e.outcomes).turn == State("Agent turn open", ToolResult, None)
  {
    hide FoldRecentResult, SanitizeText;
    FixedTextsShown();
    var o := LastOutcome(e);
    SaidIs(o.text, ToolResult, o.id);
    SaidIs("Tool failed this turn", ToolResult, o.id);
  }

  lemma NoteCommand(s: Snapshot, e: ClaudeEvent, before: Transcript)
    requires s.integrity != Unknown && s.background == RunningTasks(before) && !Breaks(before, e)
    ensures Note(s, e).command == if WritesCommand(before, e) then CommandAfter(e) else s.command
  {
    hide SanitizeText, AppendRecent, RunningTasks, Running;
    match e
    case User(task, outcomes, injected, text) =>
      var t := if task.Some? then RegisterTask(s, task.value) else s;
      if task.Some? { RunningIsMember(before, task.value); }
      if outcomes != [] { OutcomesWrite(t, e); }
    case Assistant(said, calls) => CallsKeep(NoteSaid(s, said), calls);
    case Notification(notice) =>
      if notice.Some? {
        RunningIsMember(before, notice.value.task);
        SaidIs("Background task " + notice.value.status, BackgroundTask, Some(notice.value.task));
      }
    case _ =>
  }

  lemma NoteTurn(s: Snapshot, e: ClaudeEvent, before: Transcript)
    requires s.integrity != Unknown && s.background == RunningTasks(before) && !Breaks(before, e)
    ensures Note(s, e).turn == if WritesTurn(before, e) then TurnAfter(before, e) else s.turn
  {
    hide SanitizeText, AppendRecent, RunningTasks, Running;
    FixedTextsShown();
    NoteTasks(s, e, before);
    match e
    case User(task, outcomes, injected, text) =>
      var t := if task.Some? then RegisterTask(s, task.value) else s;
      if task.Some? { RunningIsMember(before, task.value); }
      if outcomes != [] { OutcomesWrite(t, e); }
    case Assistant(said, calls) => CallsKeep(NoteSaid(s, said), calls);
    case Notification(notice) => if notice.Some? { RunningIsMember(before, notice.value.task); }
    case _ =>
  }

  lemma NoteRequest(s: Snapshot, e: ClaudeEvent, before: Transcript)
    requires s.integrity != Unknown && s.background == RunningTasks(before) && !Breaks(before, e)
    ensures Note(s, e).request == if IsHuman(e) then Said(e.text, HumanMessage, None) else s.request
    ensures Note(s, e).compaction == if e.Compaction? then State("Context compacted", Compacted, None) else s.compaction
  {
    hide SanitizeText, AppendRecent, RunningTasks, Running;
    FixedTextsShown();
    match e
    case User(task, outcomes, injected, text) =>
      if task.Some? { RunningIsMember(before, task.value); }
      OutcomesKeep(if task.Some? then RegisterTask(s, task.value) else s, outcomes);
      SaidIs(text, HumanMessage, None);
    case Assistant(said, calls) => CallsKeep(NoteSaid(s, said), calls);
    case _ =>
  }

  // ----- Plans and questions -----

  /** All tool calls of a transcript, in order. */
  function CallsOf(events: Transcript): seq<ToolCall> {
    if events == [] then []
    else
      var e := events[|events| - 1];
      CallsOf(events[..|events| - 1]) + if e.Assistant? then e.calls else []
  }

  ghost function PlanBy(c: ToolCall): Option<Collection<TaskItem>> {
    if c.name == Some("TodoWrite") then Some(ShownPlan(c.plan, TodoWrite)) else None
  }

  /** What each call writes of the plan. */
  ghost function Plans(calls: seq<ToolCall>): seq<Option<Collection<TaskItem>>> {
    seq(|calls|, i requires 0 <= i < |calls| => PlanBy(calls[i]))
  }

  lemma {:induction false} CallsPlan(s: Snapshot, before: seq<ToolCall>, calls: seq<ToolCall>)
    requires Latest(s.tasks, UnknownCollection(NoPlan), Plans(before))
    requires forall c :: 0 <= c < |calls| ==> !Nameless(calls[c])
    ensures Latest(NoteCalls(s, calls).tasks, UnknownCollection(NoPlan), Plans(before + calls))
  {
    hide SanitizeText, AppendRecent, TaskCollection, ShownPlan, Latest;
    if calls == [] {
      assert before + calls == before;
    } else {
      var n := |calls| - 1;
      var rest, last := calls[..n], calls[n];
      CallsPlan(s, before, rest);
      PlanShownExactly(last.plan, TodoWrite);
      LatestNext(NoteCalls(s, rest).tasks, UnknownCollection(NoPlan), Plans(before + rest), PlanBy(last));
      assert Plans(before + calls) == Plans(before + rest) + [PlanBy(last)];
    }
  }

  lemma NotePlan(s: Snapshot, e: ClaudeEvent, before: Transcript)
    requires s.integrity != Unknown && s.background == RunningTasks(before) && !Breaks(before, e)
    requires Latest(s.tasks, UnknownCollection(NoPlan), Plans(CallsOf(before)))
    ensures Latest(Note(s, e).tasks, UnknownCollection(NoPlan), Plans(CallsOf(before + [e])))
  {
    hide SanitizeText, AppendRecent, RunningTasks, Running, Latest;
    assert (before + [e])[..|before|] == before;
    assert CallsOf(before) + [] == CallsOf(before);
    match e
    case User(task, outcomes, injected, text) =>
      if task.Some? { RunningIsMember(before, task.value); }
      OutcomesKeep(if task.Some? then RegisterTask(s, task.value) else s, outcomes);
    case Assistant(said, calls) => CallsPlan(NoteSaid(s, said), CallsOf(before), calls);
    case _ =>
  }

  /** A question call asks under its id; without one it is not well formed. */
  function AskOf(c: ToolCall): QuestionOp {
    if c.id.Some? && c.id.value != "" then Ask(c.id, Asked(c.questions, AskUserQuestion, c.id.value))
    else Ask(None, None)
  }

  function AsksOf(calls: seq<ToolCall>): Ops {
    if calls == [] then []
    else (if calls[0].name == Some("AskUserQuestion") then [AskOf(calls[0])] else []) + AsksOf(calls[1..])
  }

  function AnswersOf(outcomes: seq<ToolOutcome>): Ops {
    if outcomes == [] then []
    else (if outcomes[0].id.Some? then [Answer(outcomes[0].id.value)] else []) + AnswersOf(outcomes[1..])
  }

  /** The asks and answers of a transcript, in order. */
  function QuestionOpsOf(events: Transcript): Ops {
    if events == [] then []
    else
      var e := events[|events| - 1];
      QuestionOpsOf(events[..|events| - 1]) +
      if e.Assistant? then AsksOf(e.calls) else if e.User? then AnswersOf(e.outcomes) else []
  }

  lemma {:induction false} AsksSnoc(calls: seq<ToolCall>, c: ToolCall)
    ensures AsksOf(calls + [c]) == AsksOf(calls) + AsksOf([c])
  {
    if calls == [] {
      assert calls + [c] == [c];
    } else {
      assert (calls + [c])[1..] == calls[1..] + [c];
      AsksSnoc(calls[1..], c);
    }
  }

  lemma {:induction false} AnswersSnoc(outcomes: seq<ToolOutcome>, o: ToolOutcome)
    ensures AnswersOf(outcomes + [o]) == AnswersOf(outcomes) + AnswersOf([o])
  {
    if outcomes == [] {
      assert outcomes + [o] == [o];
    } else {
      assert (outcomes + [o])[1..] == outcomes[1..] + [o];
      AnswersSnoc(outcomes[1..], o);
    }
  }

  lemma {:induction false} CallOpsAre(calls: seq<ToolCall>)
    ensures CallOps(calls) == AsksOf(calls)
  {
    hide QuestionClaims, Asked;
    if calls != [] {
      var n := |calls| - 1;
      var last := calls[n];
      CallOpsAre(calls[..n]);
      AsksSnoc(calls[..n], last);
      assert calls == calls[..n] + [last] && [last][1..] == [];
      if last.id.Some? { QuestionsAskedExactly(last.questions, AskUserQuestion, last.id.value); }
    }
  }

  lemma {:induction false} OutcomeOpsAre(outcomes: seq<ToolOutcome>)
    ensures OutcomeOps(outcomes) == AnswersOf(outcomes)
  {
    if outcomes != [] {
      var n := |outcomes| - 1;
      OutcomeOpsAre(outcomes[..n]);
      AnswersSnoc(outcomes[..n], outcomes[n]);
      assert outcomes == outcomes[..n] + [outcomes[n]] && [outcomes[n]][1..] == [];
    }
  }

  lemma {:induction false} FoldOpen(key: string, events: Transcript)
    ensures Fold(Start(key, None), events).open == ApplyAll(Open([], false), QuestionOpsOf(events))
  {
    hide Note, SanitizeText;
    if events == [] {
      assert GroupFrom([], []) == [];
    } else {
      var n := |events| - 1;
      var e := events[n];
      FoldOpen(key, events[..n]);
      if e.Assistant? { CallOpsAre(e.calls); }
      if e.User? { OutcomeOpsAre(e.outcomes); }
      ApplyAllConcat(Open([], false), QuestionOpsOf(events[..n]), ClaudeReducer.Ops(e));
    }
  }

  // ----- Whole transcripts -----

  ghost function CommandBy(before: Transcript, e: ClaudeEvent): Option<Claim> {
    if WritesCommand(before, e) then Some(CommandAfter(e)) else None
  }

  ghost function TurnBy(before: Transcript, e: ClaudeEvent): Option<Claim> {
    if WritesTurn(before, e) then Some(TurnAfter(before, e)) else None
  }

  function RequestBy(e: ClaudeEvent): Option<Claim> {
    if IsHuman(e) then Some(Said(e.text, HumanMessage, None)) else None
  }

  function CompactionBy(e: ClaudeEvent): Option<Claim> {
    if e.Compaction? then Some(State("Context compacted", Compacted, None)) else None
  }

  /** What each record of a transcript writes of a field, given the records before it. */
  ghost function Commands(events: Transcript): (r: seq<Option<Claim>>) {
    seq(|events|, i requires 0 <= i < |events| => CommandBy(events[..i], events[i]))
  }

  ghost function Turns(events: Transcript): (r: seq<Option<Claim>>) {
    seq(|events|, i requires 0 <= i < |events| => TurnBy(events[..i], events[i]))
  }

  function Requests(events: Transcript): (r: seq<Option<Claim>>) {
    seq(|events|, i requires 0 <= i < |events| => RequestBy(events[i]))
  }

  function Compactions(events: Transcript): (r: seq<Option<Claim>>) {
    seq(|events|, i requires 0 <= i < |events| => CompactionBy(events[i]))
  }

  lemma WrittenNext(events: Transcript)
    requires events != []
    ensures var n := |events| - 1;
            && Commands(events) == Commands(events[..n]) + [CommandBy(events[..n], events[n])]
            && Turns(events) == Turns(events[..n]) + [TurnBy(events[..n], events[n])]
            && Requests(events) == Requests(events[..n]) + [RequestBy(events[n])]
            && Compactions(events) == Compactions(events[..n]) + [CompactionBy(events[n])]
  {
    hide CommandBy, TurnBy, RequestBy, CompactionBy;
    var n := |events| - 1;
    forall i | 0 <= i < n ensures events[..n][..i] == events[..i] && events[..n][i] == events[i] {
    }
  }

  /** Every field is what the last record to write it makes of it. */
  ghost predicate Means(events: Transcript, s: Snapshot) {
    && s.background == RunningTasks(events)
    && Latest(s.command, Known(EventStream, None), Commands(events))
    && Latest(s.turn, UnknownClaim(NoTurnBoundary), Turns(events))
    && Latest(s.request, UnknownClaim(NoHumanRequest), Requests(events))
    && Latest(s.compaction, UnknownClaim(NoCompaction), Compactions(events))
    && Latest(s.tasks, UnknownCollection(NoPlan), Plans(CallsOf(events)))
  }

  lemma MeansNext(events: Transcript, s: Snapshot)
    requires events != [] && s.integrity != Unknown && Means(events[..|events| - 1], s)
    requires !Breaks(events[..|events| - 1], events[|events| - 1])
    ensures Means(events, Note(s, events[|events| - 1]))
  {
    hide Note, RunningTasks, Commands, Turns, Requests, Compactions, WritesTurn, WritesCommand, Breaks, Latest, Plans,
      CallsOf;
    var n := |events| - 1;
    var before, e := events[..n], events[n];
    assert before + [e] == events;
    NoteTasks(s, e, before);
    NoteCommand(s, e, before);
    NoteTurn(s, e, before);
    NoteRequest(s, e, before);
    NotePlan(s, e, before);
    WrittenNext(events);
    LatestNext(s.command, Known(EventStream, None), Commands(before), CommandBy(before, e));
    LatestNext(s.turn, UnknownClaim(NoTurnBoundary), Turns(before), TurnBy(before, e));
    LatestNext(s.request, UnknownClaim(NoHumanRequest), Requests(before), RequestBy(e));
    LatestNext(s.compaction, UnknownClaim(NoCompaction), Compactions(before), CompactionBy(e));
  }

  lemma {:induction false} FoldMeans(key: string, events: Transcript)
    ensures var s := Fold(Start(key, None), events).snap;
            && (s.integrity != Unknown <==> Trustworthy(events))
            && (Trustworthy(events) ==> Means(events, s))
  {
    hide Note, Means, Breaks, Trustworthy;
    if events == [] {
      StartMeans(key);
    } else {
      var n := |events| - 1;
      var s := Fold(Start(key, None), events[..n]).snap;
      FoldMeans(key, events[..n]);
      TrustworthyNext(events);
      if Trustworthy(events[..n]) { MeansTasks(events[..n], s); }
      NoteTrust(s, events[n], events[..n]);
      if Trustworthy(events) { MeansNext(events, s); }
    }
  }

  lemma MeansTasks(events: Transcript, s: Snapshot)
    requires Means(events, s)
    ensures s.background == RunningTasks(events)
  {
  }

  lemma StartMeans(key: string)
    ensures var s := Fold(Start(key, None), []).snap; s.integrity != Unknown && Trustworthy([]) && Means([], s)
  {
  }

  /** What a whole transcript leads to. */
  lemma TranscriptMeans(key: string, events: Transcript)
    ensures var s := Reduce(key, events, None);
            && (s.integrity != Unknown <==> Trustworthy(events))
            && (Trustworthy(events) ==>
              Means(events, s) && ShowsQuestions(QuestionOpsOf(events), AskUserQuestion, s.questions))
  {
    hide Means, Trustworthy, Fold, Start, Finish, ShowsQuestions;
    FoldMeans(key, events);
    var l := Fold(Start(key, None), events);
    FinishKeeps(l);
    FoldOpen(key, events);
    QuestionsShown(QuestionOpsOf(events), AskUserQuestion);
    if l.snap.integrity != Unknown { MeansSame(events, l.snap, Finish(l)); }
  }

  lemma FinishKeeps(l: Loop)
    ensures (Finish(l).integrity == Unknown) == (l.snap.integrity == Unknown)
    ensures l.snap.integrity != Unknown ==> Finish(l) == l.snap.(questions := Shown(l.open, AskUserQuestion))
  {
  }

  lemma MeansSame(events: Transcript, s: Snapshot, t: Snapshot)
    requires Means(events, s) && t == s.(questions := t.questions)
    ensures Means(events, t)
  {
    hide RunningTasks, Latest, CallsOf, Plans;
  }
}
