/** Which status signals a whole transcript or rollout leads to, read directly off its records: when
    the records count as parsed, when the agent's turn has ended and when a tool error is open. */
module SignalMeaning {
  import opened Text
  import opened LastWord
  import opened Splitting
  import opened Publish
  import Summary = SummaryModel
  import Turn = TurnBoundary
  import Claude = ClaudeMeaning
  import ClaudeReducer
  import Codex = CodexMeaning
  import CodexReducer

  // ----- One claim -----

  /** A turn that is shown as one of the four known texts. */
  lemma TurnSignal(s: Summary.Snapshot)
    requires s.background == {}
    ensures s.turn.provenance == Summary.Unknown ==> SignalsOf(s).turnEnded == Turn.Unknown
    ensures s.turn.provenance != Summary.Unknown && s.turn.text == Some("Agent turn open") ==>
              SignalsOf(s).turnEnded == Turn.False
    ensures s.turn.provenance != Summary.Unknown && s.turn.text.Some?
            && s.turn.text.value in {"Turn returned to human", "Turn aborted", "Awaiting explicit answer"} ==>
              SignalsOf(s).turnEnded == Turn.True
  {
  }

  lemma CommandSignal(s: Summary.Snapshot)
    ensures SignalsOf(s).toolError == if s.command.provenance == Summary.Unknown then Turn.Unknown
                                      else if s.command.text.None? || s.command.text == Some("") then Turn.False
                                      else Turn.True
  {
  }

  lemma RunningSignal(s: Summary.Snapshot)
    requires s.background != {}
    ensures SignalsOf(s).turnEnded == Turn.False
  {
  }

  lemma LostSignals(s: Summary.Snapshot)
    ensures SignalsOf(s).sourceReadable == Turn.True
    ensures SignalsOf(s).recordsParsed == if s.integrity == Summary.Unknown then Turn.False else Turn.True
    ensures FailsClosed(s) && s.integrity == Summary.Unknown ==>
              SignalsOf(s).toolError == Turn.Unknown && SignalsOf(s).turnEnded != Turn.True
  {
  }

  // ----- Claude Code -----

  ghost predicate LastTurn(events: Claude.Transcript, k: nat) {
    && k < |events| && Claude.WritesTurn(events[..k], events[k])
    && forall j :: k < j < |events| ==> !Claude.WritesTurn(events[..j], events[j])
  }

  ghost predicate LastCommand(events: Claude.Transcript, k: nat) {
    && k < |events| && Claude.WritesCommand(events[..k], events[k])
    && forall j :: k < j < |events| ==> !Claude.WritesCommand(events[..j], events[j])
  }

  /** The records after which the human is up: a question call, a message without calls that no
      running task holds up, and the notice that ends the last task. */
  ghost predicate HandsOver(before: Claude.Transcript, e: ClaudeReducer.ClaudeEvent) {
    || Claude.AsksHuman(e)
    || (e.Assistant? && e.calls == [] && e.said != "" && Claude.RunningTasks(before) == {})
    || (Claude.EndsRunning(before, e) && Claude.RunningTasks(before + [e]) == {})
  }

  /** No task runs and the last record to speak about the turn hands it over. */
  ghost predicate Ended(events: Claude.Transcript) {
    Claude.RunningTasks(events) == {} && exists k: nat :: LastTurn(events, k) && HandsOver(events[..k], events[k])
  }

  /** No task runs and no record speaks about the turn. */
  ghost predicate Unsettled(events: Claude.Transcript) {
    && Claude.RunningTasks(events) == {}
    && forall k :: 0 <= k < |events| ==> !Claude.WritesTurn(events[..k], events[k])
  }

  /** A failed result with something to show, or a task that ended without success. */
  predicate ShowsFailure(e: ClaudeReducer.ClaudeEvent) {
    if Claude.IsResult(e) then
      var o := Claude.LastOutcome(e);
      o.failed && (o.text == "" || SanitizeText(o.text) != "")
    else e.Notification? && e.notice.Some? && e.notice.value.status !in {"completed", "succeeded", "success"}
  }

  /** A failed result whose text is nothing but blanks and control characters. */
  predicate HidesFailure(e: ClaudeReducer.ClaudeEvent) {
    Claude.IsResult(e) && var o := Claude.LastOutcome(e); o.failed && o.text != "" && SanitizeText(o.text) == ""
  }

  lemma TurnIsLast(events: Claude.Transcript, k: nat)
    ensures IsLast(Claude.Turns(events), k) <==> LastTurn(events, k)
  {
    hide Claude.WritesTurn, Claude.TurnAfter;
    var all := Claude.Turns(events);
    assert forall j :: 0 <= j < |events| ==> all[j] == Claude.TurnBy(events[..j], events[j]);
  }

  lemma CommandIsLast(events: Claude.Transcript, k: nat)
    ensures IsLast(Claude.Commands(events), k) <==> LastCommand(events, k)
  {
    hide Claude.WritesCommand, Claude.CommandAfter;
    var all := Claude.Commands(events);
    assert forall j :: 0 <= j < |events| ==> all[j] == Claude.CommandBy(events[..j], events[j]);
  }

  lemma TurnShown(before: Claude.Transcript, e: ClaudeReducer.ClaudeEvent)
    requires Claude.WritesTurn(before, e)
    ensures var turn := Claude.TurnAfter(before, e);
            && turn.provenance != Summary.Unknown && turn.text.Some?
            && (HandsOver(before, e) ==> turn.text.value in {"Turn returned to human", "Awaiting explicit answer"})
            && (!HandsOver(before, e) ==> turn.text.value == "Agent turn open")
  {
    hide Claude.RunningTasks, Claude.Running;
  }

  /** The turn over whole transcripts. */
  lemma ClaudeTurn(events: Claude.Transcript, s: Summary.Snapshot)
    requires Claude.Means(events, s)
    ensures SignalsOf(s).turnEnded == Turn.True <==>
            Claude.RunningTasks(events) == {} && exists k: nat ::
                LastTurn(events, k) && HandsOver(events[..k], events[k])
    ensures SignalsOf(s).turnEnded == Turn.Unknown <==> Unsettled(events)
  {
    hide Claude.WritesTurn, Claude.TurnAfter, Claude.RunningTasks, HandsOver, LastTurn, SignalsOf;
    var turns := Claude.Turns(events);
    if s.background != {} {
      RunningSignal(s);
    } else if i :| 0 <= i < |events| && Claude.WritesTurn(events[..i], events[i]) {
      assert turns[i] == Claude.TurnBy(events[..i], events[i]);
      var k := SomeIsLast(turns, i);
      TurnIsLast(events, k);
      LastTurnIs(events, s, k);
      forall l: nat | LastTurn(events, l) ensures l == k { OneLastTurn(events, k, l); }
    } else {
      assert forall j :: 0 <= j < |events| ==> turns[j] == Claude.TurnBy(events[..j], events[j]);
      TurnSignal(s);
      forall l: nat ensures !LastTurn(events, l) { NoLastTurn(events, l); }
    }
  }

  lemma OneLastTurn(events: Claude.Transcript, k: nat, l: nat)
    requires LastTurn(events, k) && LastTurn(events, l)
    ensures k == l
  {
    hide Claude.WritesTurn;
  }

  lemma NoLastTurn(events: Claude.Transcript, l: nat)
    requires forall i :: 0 <= i < |events| ==> !Claude.WritesTurn(events[..i], events[i])
    ensures !LastTurn(events, l)
  {
    hide Claude.WritesTurn;
  }

  lemma LastTurnIs(events: Claude.Transcript, s: Summary.Snapshot, k: nat)
    requires Claude.Means(events, s) && s.background == {} && LastTurn(events, k)
    ensures SignalsOf(s).turnEnded == if HandsOver(events[..k], events[k]) then Turn.True else Turn.False
  {
    hide Claude.WritesTurn, Claude.TurnAfter, Claude.RunningTasks, HandsOver, SignalsOf;
    TurnIsLast(events, k);
    assert Claude.Turns(events)[k] == Claude.TurnBy(events[..k], events[k]);
    TurnShown(events[..k], events[k]);
    TurnSignal(s);
  }

  lemma FailureShown(e: ClaudeReducer.ClaudeEvent)
    requires Claude.IsHuman(e) || Claude.IsResult(e) || (e.Notification? && e.notice.Some?)
    ensures var c := Claude.CommandAfter(e);
            && (ShowsFailure(e) <==> c.provenance != Summary.Unknown && c.text.Some? && c.text != Some(""))
            && (HidesFailure(e) <==> c.provenance == Summary.Unknown)
  {
    hide SanitizeText;
    ToolFailedShown();
    if e.Notification? { PlainStartShown("Background task " + e.notice.value.status); }
  }

  /** The command outcome over whole transcripts. */
  lemma ClaudeError(events: Claude.Transcript, s: Summary.Snapshot)
    requires Claude.Means(events, s)
    ensures SignalsOf(s).toolError == Turn.True <==>
            exists k: nat :: LastCommand(events, k) && ShowsFailure(events[k])
    ensures SignalsOf(s).toolError == Turn.Unknown <==>
            exists k: nat :: LastCommand(events, k) && HidesFailure(events[k])
  {
    hide Claude.WritesCommand, Claude.CommandAfter, ShowsFailure, HidesFailure, LastCommand, SignalsOf;
    var commands := Claude.Commands(events);
    if i :| 0 <= i < |events| && Claude.WritesCommand(events[..i], events[i]) {
      assert commands[i] == Claude.CommandBy(events[..i], events[i]);
      var k := SomeIsLast(commands, i);
      CommandIsLast(events, k);
      LastCommandIs(events, s, k);
      forall l: nat | LastCommand(events, l) ensures l == k { OneLastCommand(events, k, l); }
    } else {
      assert forall j :: 0 <= j < |events| ==> commands[j] == Claude.CommandBy(events[..j], events[j]);
      CommandSignal(s);
      forall l: nat ensures !LastCommand(events, l) { NoLastCommand(events, l); }
    }
  }

  lemma OneLastCommand(events: Claude.Transcript, k: nat, l: nat)
    requires LastCommand(events, k) && LastCommand(events, l)
    ensures k == l
  {
    hide Claude.WritesCommand;
  }

  lemma NoLastCommand(events: Claude.Transcript, l: nat)
    requires forall i :: 0 <= i < |events| ==> !Claude.WritesCommand(events[..i], events[i])
    ensures !LastCommand(events, l)
  {
    hide Claude.WritesCommand;
  }

  lemma LastCommandIs(events: Claude.Transcript, s: Summary.Snapshot, k: nat)
    requires Claude.Means(events, s) && LastCommand(events, k)
    ensures SignalsOf(s).toolError == if HidesFailure(events[k]) then Turn.Unknown
                                      else if ShowsFailure(events[k]) then Turn.True else Turn.False
    ensures !(HidesFailure(events[k]) && ShowsFailure(events[k]))
  {
    hide Claude.CommandAfter, SignalsOf, ShowsFailure, HidesFailure, Claude.Running;
    CommandIsLast(events, k);
    assert Claude.Commands(events)[k] == Claude.CommandBy(events[..k], events[k]);
    FailureShown(events[k]);
    CommandSignal(s);
  }

  /** The signals of every transcript. */
  lemma ClaudeSignals(key: string, events: Claude.Transcript)
    ensures var g := SignalsOf(ClaudeReducer.Reduce(key, events, None));
            && g.sourceReadable == Turn.True
            && (g.recordsParsed == Turn.True <==> Claude.Trustworthy(events)) && g.recordsParsed != Turn.Unknown
            && (!Claude.Trustworthy(events) ==> g.toolError == Turn.Unknown && g.turnEnded != Turn.True)
    ensures Claude.Trustworthy(events) ==>
              var g := SignalsOf(ClaudeReducer.Reduce(key, events, None));
              && (g.turnEnded == Turn.True <==> Ended(events)) && (g.turnEnded == Turn.Unknown <==> Unsettled(events))
              && (g.toolError == Turn.True <==> exists k: nat :: LastCommand(events, k) && ShowsFailure(events[k]))
              && (g.toolError == Turn.Unknown <==> exists k: nat :: LastCommand(events, k) && HidesFailure(events[k]))
  {
    hide SignalsOf, ClaudeReducer.Reduce, Claude.Trustworthy, Claude.Means, Claude.WritesTurn, Claude.RunningTasks,
      HandsOver, LastTurn, LastCommand, ShowsFailure, HidesFailure, FailsClosed;
    var s := ClaudeReducer.Reduce(key, events, None);
    Claude.TranscriptMeans(key, events);
    UntrustedFailsClosed(key, events, [], None);
    LostSignals(s);
    if Claude.Trustworthy(events) {
      ClaudeTurn(events, s);
      ClaudeError(events, s);
    }
  }

  // ----- Codex -----

  /** The events that leave the turn open or hand it over. */
  predicate TouchesTurn(e: CodexReducer.CodexEvent) {
    e.TurnEnd? || e.Call? || e.Output? || e.HumanSaid?
  }

  ghost predicate LastTouch(events: Codex.Rollout, k: nat) {
    k < |events| && TouchesTurn(events[k]) && forall j :: k < j < |events| ==> !TouchesTurn(events[j])
  }

  ghost predicate LastOutcome(events: Codex.Rollout, k: nat) {
    && k < |events| && Codex.CommandBy(events[k]).Some?
    && forall j :: k < j < |events| ==> Codex.CommandBy(events[j]).None?
  }

  /** A failure without a text of its own, or with one that shows something. */
  predicate Visible(f: CodexReducer.Failure) {
    || (f.commandEnd && ((f.exitCode.Some? && f.exitCode.value != 0) || f.statusFailed))
    || (f.patchEnd && f.patchFailed) || f.detail.None? || f.detail.value == "" || SanitizeText(f.detail.value) != ""
  }

  lemma TouchIsLast(events: Codex.Rollout, k: nat)
    ensures IsLast(Codex.Turns(events), k) <==> LastTouch(events, k)
  {
    hide Codex.TakesUp;
    var all := Codex.Turns(events);
    assert forall j :: 0 <= j < |events| ==> all[j] == Codex.TurnBy(events[..j], events[j]);
    forall j | 0 <= j < |events| ensures all[j].Some? <==> TouchesTurn(events[j]) {
      if Codex.TakesUp(events[..j], events[j]) { TakenIsCall(events[..j], events[j]); }
    }
  }

  lemma TakenIsCall(before: Codex.Rollout, e: CodexReducer.CodexEvent)
    requires Codex.TakesUp(before, e)
    ensures e.Call?
  {
  }

  lemma OutcomeIsLast(events: Codex.Rollout, k: nat)
    ensures IsLast(Codex.Commands(events), k) <==> LastOutcome(events, k)
  {
    hide Codex.CommandBy;
    var all := Codex.Commands(events);
    assert forall j :: 0 <= j < |events| ==> all[j] == Codex.CommandBy(events[j]);
  }

  /** Whether the last event to touch the turn hands it over. */
  ghost predicate CodexHandsOver(events: Codex.Rollout, k: nat) {
    k < |events| && (events[k].TurnEnd? || Codex.TakesUp(events[..k], events[k]))
  }

  lemma LastTouchIs(events: Codex.Rollout, s: Summary.Snapshot, k: nat)
    requires Codex.Means(events, s) && LastTouch(events, k)
    ensures SignalsOf(s).turnEnded == if CodexHandsOver(events, k) then Turn.True else Turn.False
  {
    hide SignalsOf, Codex.TakesUp;
    TouchIsLast(events, k);
    assert Codex.Turns(events)[k] == Codex.TurnBy(events[..k], events[k]);
    TurnSignal(s);
  }

  lemma OneLastTouch(events: Codex.Rollout, k: nat, l: nat)
    requires LastTouch(events, k) && LastTouch(events, l)
    ensures k == l
  {
  }

  lemma CodexTurn(events: Codex.Rollout, s: Summary.Snapshot)
    requires Codex.Means(events, s)
    ensures SignalsOf(s).turnEnded == Turn.True <==>
            exists k: nat :: LastTouch(events, k) && CodexHandsOver(events, k)
    ensures SignalsOf(s).turnEnded == Turn.Unknown <==> forall k :: 0 <= k < |events| ==> !TouchesTurn(events[k])
  {
    hide SignalsOf, CodexHandsOver, Codex.TurnBy, LastTouch;
    var turns := Codex.Turns(events);
    if i :| 0 <= i < |events| && turns[i].Some? {
      var k := SomeIsLast(turns, i);
      TouchIsLast(events, k);
      LastTouchIs(events, s, k);
      TouchedAt(events, k);
      forall l: nat | LastTouch(events, l) ensures l == k { OneLastTouch(events, k, l); }
    } else {
      TurnSignal(s);
      forall l: nat ensures !LastTouch(events, l) { TouchIsLast(events, l); }
      forall k | 0 <= k < |events| ensures !TouchesTurn(events[k]) { Untouched(events, k); }
    }
  }

  lemma TouchedAt(events: Codex.Rollout, k: nat)
    requires LastTouch(events, k)
    ensures k < |events| && TouchesTurn(events[k])
  {
  }

  lemma Untouched(events: Codex.Rollout, k: nat)
    requires k < |events| && Codex.Turns(events)[k].None?
    ensures !TouchesTurn(events[k])
  {
    hide Codex.TakesUp;
    assert Codex.Turns(events)[k] == Codex.TurnBy(events[..k], events[k]);
  }

  lemma FailureVisible(f: CodexReducer.Failure)
    ensures Codex.FailureShown(f).provenance != Summary.Unknown <==> Visible(f)
    ensures Visible(f) ==> Codex.FailureShown(f).text.Some? && Codex.FailureShown(f).text != Some("")
  {
    hide SanitizeText, Decimal;
    if f.exitCode.Some? { PlainStartShown("Command exited " + Decimal(f.exitCode.value) + " this turn"); }
  }

  lemma LastOutcomeIs(events: Codex.Rollout, s: Summary.Snapshot, k: nat)
    requires Codex.Means(events, s) && LastOutcome(events, k)
    ensures SignalsOf(s).toolError == if !events[k].Failed? then Turn.False
                                      else if Visible(events[k].failure) then Turn.True else Turn.Unknown
  {
    hide SignalsOf, Visible, SanitizeText, Codex.FailureShown;
    OutcomeIsLast(events, k);
    assert Codex.Commands(events)[k] == Codex.CommandBy(events[k]);
    CommandSignal(s);
    if events[k].Failed? { FailureVisible(events[k].failure); }
  }

  lemma CodexError(events: Codex.Rollout, s: Summary.Snapshot)
    requires Codex.Means(events, s)
    ensures SignalsOf(s).toolError == Turn.True <==>
            exists k: nat :: LastOutcome(events, k) && events[k].Failed? && Visible(events[k].failure)
    ensures SignalsOf(s).toolError == Turn.Unknown <==>
            exists k: nat :: LastOutcome(events, k) && events[k].Failed? && !Visible(events[k].failure)
  {
    hide SignalsOf, Visible, LastOutcome, Codex.CommandBy;
    var commands := Codex.Commands(events);
    if i :| 0 <= i < |events| && commands[i].Some? {
      var k := SomeIsLast(commands, i);
      OutcomeIsLast(events, k);
      LastOutcomeIs(events, s, k);
      forall l: nat | LastOutcome(events, l) ensures l == k { OneLastOutcome(events, k, l); }
    } else {
      CommandSignal(s);
      forall l: nat ensures !LastOutcome(events, l) { OutcomeIsLast(events, l); }
    }
  }

  lemma OneLastOutcome(events: Codex.Rollout, k: nat, l: nat)
    requires LastOutcome(events, k) && LastOutcome(events, l)
    ensures k == l
  {
    hide Codex.CommandBy;
  }

  /** The signals of every rollout. */
  lemma CodexSignals(key: string, events: Codex.Rollout)
    ensures var g := SignalsOf(CodexReducer.Reduce(key, events, None));
            && g.sourceReadable == Turn.True
            && (g.recordsParsed == Turn.True <==> Codex.Trustworthy(events)) && g.recordsParsed != Turn.Unknown
            && (!Codex.Trustworthy(events) ==> g.toolError == Turn.Unknown && g.turnEnded != Turn.True)
    ensures Codex.Trustworthy(events) ==>
              var g := SignalsOf(CodexReducer.Reduce(key, events, None));
              && (g.turnEnded == Turn.True <==> exists k: nat :: LastTouch(events, k) && CodexHandsOver(events, k))
              && (g.turnEnded == Turn.Unknown <==> forall k :: 0 <= k < |events| ==> !TouchesTurn(events[k]))
              && (g.toolError == Turn.True <==> exists k: nat ::
                    LastOutcome(events, k) && events[k].Failed? && Visible(events[k].failure))
              && (g.toolError == Turn.Unknown <==> exists k: nat ::
                    LastOutcome(events, k) && events[k].Failed? && !Visible(events[k].failure))
  {
    hide SignalsOf, CodexReducer.Reduce, Codex.Trustworthy, Codex.Means, CodexHandsOver, LastTouch, LastOutcome,
         Visible,
      FailsClosed;
    var s := CodexReducer.Reduce(key, events, None);
    Codex.RolloutMeans(key, events);
    UntrustedFailsClosed(key, [], events, None);
    LostSignals(s);
    if Codex.Trustworthy(events) {
      CodexTurn(events, s);
      CodexError(events, s);
    }
  }
}
