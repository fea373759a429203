/** Where a snapshot comes from: each reducer keeps its source's name, and of the reasons it gives for
    what it does not know none is a foreign source or a malformed line. */
module SnapshotSources {
  import opened Text
  import opened SummaryModel
  import opened OpenQuestions
  import opened ReducerLoop
  import opened Tail
  import opened SummaryUpdater
  import opened UpdaterRuns
  import Claude = ClaudeReducer
  import ClaudeBatching
  import Codex = CodexReducer

  predicate OwnReason(r: Reason) {
    !r.UnsupportedSource? && !r.Malformed?
  }

  predicate From(s: Snapshot, source: string) {
    s.source == source && forall i :: 0 <= i < |s.reasons| ==> OwnReason(s.reasons[i])
  }

  lemma AppendOwn(reasons: seq<Reason>, reason: Reason)
    requires OwnReason(reason) && forall i :: 0 <= i < |reasons| ==> OwnReason(reasons[i])
    ensures forall i :: 0 <= i < |AppendReason(reasons, reason)| ==> OwnReason(AppendReason(reasons, reason)[i])
  {
  }

  lemma UnknownFrom(s: Snapshot, source: string, reason: Reason)
    requires From(s, source) && OwnReason(reason)
    ensures From(WithUnknown(s, reason), source)
  {
    hide AppendReason;
    AppendOwn(s.reasons, reason);
  }

  lemma CloseFrom(l: Loop, source: string, kind: Kind)
    requires From(l.snap, source)
    ensures From(Close(l, kind), source)
  {
    hide WithUnknown;
    var s := l.snap.(questions := Shown(l.open, kind));
    UnknownFrom(s, source, LastReason(s));
  }

  lemma {:induction false} OutcomesFrom(s: Snapshot, source: string, outcomes: seq<Claude.ToolOutcome>)
    requires From(s, source)
    ensures From(Claude.NoteOutcomes(s, outcomes), source)
  {
    hide SanitizeText, AppendRecent, FoldRecentResult;
    if outcomes != [] { OutcomesFrom(s, source, outcomes[..|outcomes| - 1]); }
  }

  lemma {:induction false} CallsFrom(s: Snapshot, source: string, calls: seq<Claude.ToolCall>)
    requires From(s, source)
    ensures From(Claude.NoteCalls(s, calls), source)
  {
    hide SanitizeText, AppendRecent, WithUnknown;
    if calls != [] {
      CallsFrom(s, source, calls[..|calls| - 1]);
      UnknownFrom(Claude.NoteCalls(s, calls[..|calls| - 1]), source, ClaudeToolName);
    }
  }

  lemma ClaudeNoteFrom(s: Snapshot, source: string, e: Claude.ClaudeEvent)
    requires From(s, source)
    ensures From(Claude.Note(s, e), source)
  {
    hide SanitizeText, AppendRecent, WithUnknown, Claude.NoteOutcomes, Claude.NoteCalls;
    match e
    case Undecodable => UnknownFrom(s, source, ClaudePayload);
    case User(task, outcomes, injected, text) =>
      var s' := if task.Some? then Claude.RegisterTask(s, task.value) else s;
      UnknownFrom(s, source, ClaudeBackgroundTasks);
      OutcomesFrom(s', source, outcomes);
    case Assistant(said, calls) => CallsFrom(Claude.NoteSaid(s, said), source, calls);
    case _ =>
  }

  lemma {:induction false} ClaudeFoldFrom(l: Loop, source: string, events: seq<Claude.ClaudeEvent>)
    requires From(l.snap, source)
    ensures From(Claude.Fold(l, events).snap, source)
  {
    hide Claude.Note, Claude.Ops;
    if events != [] {
      ClaudeFoldFrom(l, source, events[..|events| - 1]);
      ClaudeNoteFrom(Claude.Fold(l, events[..|events| - 1]).snap, source, events[|events| - 1]);
    }
  }

  lemma CodexNoteFrom(s: Snapshot, source: string, e: Codex.CodexEvent, taken: bool)
    requires From(s, source)
    ensures From(Codex.Note(s, e, taken), source)
  {
    hide SanitizeText, AppendRecent, FoldRecentResult, WithUnknown, AppendReason;
    UnknownFrom(s, source, CodexPayload);
    UnknownFrom(s, source, CodexToolName);
    AppendOwn(s.reasons, CodexUnsupportedEvent);
  }

  lemma {:induction false} CodexFoldFrom(l: Loop, source: string, events: seq<Codex.CodexEvent>)
    requires From(l.snap, source)
    ensures From(Codex.Fold(l, events).snap, source)
  {
    hide Codex.Note, Codex.Advance, Codex.Taken;
    if events != [] {
      var m, e := Codex.Fold(l, events[..|events| - 1]), events[|events| - 1];
      CodexFoldFrom(l, source, events[..|events| - 1]);
      CodexNoteFrom(m.snap, source, e, Codex.Taken(m.open, e));
    }
  }

  lemma ReducersKeepSource(key: string, xs: seq<Claude.ClaudeEvent>, ys: seq<Codex.CodexEvent>,
                           initial: Option<Snapshot>)
    ensures (initial.Some? ==> From(initial.value, Claude.SOURCE)) ==>
              From(Claude.Reduce(key, xs, initial), Claude.SOURCE)
    ensures (initial.Some? ==> From(initial.value, Codex.SOURCE)) ==> From(Codex.Reduce(key, ys, initial), Codex.SOURCE)
  {
    hide From, Close, Claude.Fold, Codex.Fold;
    StartsFrom(Claude.SOURCE, key);
    StartsFrom(Codex.SOURCE, key);
    if initial.Some? ==> From(initial.value, Claude.SOURCE) {
      ClaudeFoldFrom(Claude.Start(key, initial), Claude.SOURCE, xs);
      CloseFrom(Claude.Fold(Claude.Start(key, initial), xs), Claude.SOURCE, AskUserQuestion);
    }
    if initial.Some? ==> From(initial.value, Codex.SOURCE) {
      CodexFoldFrom(Codex.Start(key, initial), Codex.SOURCE, ys);
      CloseFrom(Codex.Fold(Codex.Start(key, initial), ys), Codex.SOURCE, RequestUserInput);
    }
  }

  lemma StartsFrom(source: string, key: string)
    ensures From(StartingSnapshot(source, key), source)
  {
  }

  /** Over every run of file contents, what the updater holds names its source, and any reason in it is
      the reducer's own. */
  lemma ObservedFrom(key: string, files: seq<seq<byte>>, claude: Decoder<Claude.ClaudeEvent>,
                     codex: Decoder<Codex.CodexEvent>)
    ensures From(Observed(files, claude, ClaudeReduction(key)).current, Claude.SOURCE)
    ensures From(Observed(files, codex, CodexReduction(key)).current, Codex.SOURCE)
  {
    hide From, Claude.Reduce, Codex.Reduce, Observed;
    forall events, initial: Option<Snapshot> | initial.Some? ==> From(initial.value, Claude.SOURCE)
      ensures From(Claude.Reduce(key, events, initial), Claude.SOURCE)
    {
      ReducersKeepSource(key, events, [], initial);
    }
    forall events, initial: Option<Snapshot> | initial.Some? ==> From(initial.value, Codex.SOURCE)
      ensures From(Codex.Reduce(key, events, initial), Codex.SOURCE)
    {
      ReducersKeepSource(key, [], events, initial);
    }
    ObservedKeeps(files, claude, ClaudeReduction(key), s => From(s, Claude.SOURCE));
    ObservedKeeps(files, codex, CodexReduction(key), s => From(s, Codex.SOURCE));
  }
}
