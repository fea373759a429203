/** Who holds the turn, read directly off the records: for every verdict, basis and corroboration of
    `observer/turn_boundary.py` the records that lead to it, and no others. */
module TurnMeaning {
  import opened Text
  import opened TurnBoundary

  // ----- What single records say -----

  predicate Returns(r: Record) {
    exists b :: 0 <= b < |r.blocks| && r.blocks[b].ToolResult?
  }

  predicate Calls(r: Record) {
    exists b :: 0 <= b < |r.blocks| && r.blocks[b].ToolUse?
  }

  /** A call of the tool that only the human can answer. */
  predicate AsksHuman(r: Record) {
    exists b :: 0 <= b < |r.blocks| && r.blocks[b].ToolUse? && r.blocks[b].name == "AskUserQuestion"
  }

  /** A line that did not decode, or a message that the harness did not inject. */
  predicate Speaks(r: Option<Record>) {
    || r.None?
    || r.value.kind == Assistant
    || (r.value.kind == User && (Returns(r.value) || !r.value.injected))
  }

  /** The last record that speaks. */
  predicate SpeaksLast(records: Records, k: int) {
    0 <= k < |records| && Speaks(records[k]) && forall i :: k < i < |records| ==> !Speaks(records[i])
  }

  predicate AssistantLast(records: Records, k: int) {
    SpeaksLast(records, k) && records[k].Some? && records[k].value.kind == Assistant
  }

  predicate UserLast(records: Records, k: int) {
    SpeaksLast(records, k) && records[k].Some? && records[k].value.kind == User
  }

  // ----- Background tasks -----

  predicate Starts(r: Option<Record>, id: string) {
    r.Some? && r.value.started == Some(id)
  }

  predicate Finishes(r: Option<Record>, id: string) {
    r.Some? && r.value.finished == Some(id)
  }

  /** Record `s` starts a task that no record from there on finishes. */
  predicate LeftRunning(records: Records, s: int) {
    && 0 <= s < |records| && records[s].Some? && records[s].value.started.Some?
    && forall f :: s <= f < |records| ==> !Finishes(records[f], records[s].value.started.value)
  }

  ghost predicate SomeTaskRuns(records: Records) {
    exists s :: LeftRunning(records, s)
  }

  /** A task is active exactly if some record starts it and none from there on finishes it. */
  lemma {:induction false} ActiveExactly(records: Records, id: string)
    ensures id in ActiveTasks(records) <==>
            exists s :: 0 <= s < |records| && Starts(records[s], id) && forall f :: s <= f < |records| ==>
                !Finishes(records[f], id)
  {
    if records != [] {
      var n := |records| - 1;
      var init := records[..n];
      ActiveExactly(init, id);
      if id in ActiveTasks(records) {
        if id in ActiveTasks(init) && !Starts(records[n], id) {
          var s :| 0 <= s < n && Starts(init[s], id) && forall f :: s <= f < n ==> !Finishes(init[f], id);
          assert Starts(records[s], id);
          forall f | s <= f < |records| ensures !Finishes(records[f], id) {
            if f < n { assert records[f] == init[f]; }
          }
        } else {
          assert Starts(records[n], id);
        }
      }
      if s :| 0 <= s < |records| && Starts(records[s], id) && forall f :: s <= f < |records| ==>
          !Finishes(records[f], id) {
        assert !Finishes(records[n], id);
        if s < n {
          assert Starts(init[s], id);
          assert forall f :: s <= f < n ==> init[f] == records[f];
        }
      }
    }
  }

  lemma RunningExactly(records: Records)
    ensures ActiveTasks(records) != {} <==> SomeTaskRuns(records)
  {
    if ActiveTasks(records) != {} {
      var id := AnElement(ActiveTasks(records));
      ActiveExactly(records, id);
      var s :| 0 <= s < |records| && Starts(records[s], id) && forall f :: s <= f < |records| ==>
          !Finishes(records[f], id);
      assert LeftRunning(records, s);
    }
    if s :| LeftRunning(records, s) {
      var id := records[s].value.started.value;
      assert Starts(records[s], id);
      ActiveExactly(records, id);
    }
  }

  // ----- Turn and basis -----

  lemma SpeaksIsDecisive(r: Option<Record>)
    ensures Speaks(r) <==> Decisive(r)
    ensures r.Some? ==> Returns(r.value) == HasResult(r.value) && Calls(r.value) == HasCall(r.value)
    ensures r.Some? ==> AsksHuman(r.value) == HasBlockingCall(r.value)
    ensures r.Some? && AsksHuman(r.value) ==> Calls(r.value)
  {
    if r.Some? {
      assert Returns(r.value) == HasResult(r.value);
      assert Calls(r.value) == HasCall(r.value);
    }
  }

  lemma OnlyOneSpeaksLast(records: Records, k: int, m: int)
    requires SpeaksLast(records, k) && SpeaksLast(records, m)
    ensures k == m
  {
  }

  /** The record that `LastDecisive` finds is the last one that speaks. */
  lemma LastDecisiveSpeaks(records: Records)
    ensures var at := LastDecisive(records);
            && (at.Some? ==> SpeaksLast(records, at.value))
            && (at.None? ==> forall i :: 0 <= i < |records| ==> !Speaks(records[i]))
  {
    forall i | 0 <= i < |records| ensures Speaks(records[i]) <==> Decisive(records[i]) {
      SpeaksIsDecisive(records[i]);
    }
  }

  /** The turn has ended exactly if the last record that speaks is an assistant message that asks the
      human, or that calls nothing while no background task runs. */
  ghost predicate HandsBack(records: Records) {
    exists k :: AssistantLast(records, k) &&
      (AsksHuman(records[k].value) || (!Calls(records[k].value) && !SomeTaskRuns(records)))
  }

  /** The agent holds the turn exactly if a user message speaks last, or an assistant message that calls
      a tool other than asking, or one that calls nothing while a background task runs. */
  ghost predicate KeepsTurn(records: Records) {
    exists k :: UserLast(records, k) || (AssistantLast(records, k) && !AsksHuman(records[k].value)
                                         && (Calls(records[k].value) || SomeTaskRuns(records)))
  }

  /** Nothing is known exactly if no record speaks, or a line that did not decode speaks last. */
  ghost predicate CannotTell(records: Records) {
    (forall i :: 0 <= i < |records| ==> !Speaks(records[i])) || exists k :: SpeaksLast(records, k) && records[k].None?
  }

  /** Exactly which records end the turn, keep it, or leave it open; the signal says the same. */
  lemma TurnExactly(records: Records, clock: Clock)
    ensures var ended := BoundaryOf(records, clock).ended;
            && (ended == True <==> HandsBack(records))
            && (ended == False <==> KeepsTurn(records))
            && (ended == Unknown <==> CannotTell(records))
            && ObservationOf(records, clock).signals.turnEnded == ended
            && ObservationOf(records, clock).signals.sourceReadable == True
  {
    hide SomeTaskRuns, ActiveTasks, Speaks, AsksHuman, Returns, Calls, HasResult, HasCall, HasBlockingCall;
    LastDecisiveSpeaks(records);
    RunningExactly(records);
    var at := LastDecisive(records);
    if at.Some? {
      var k := at.value;
      SpeaksIsDecisive(records[k]);
      SpeakerKind(records[k]);
      forall m | SpeaksLast(records, m) ensures m == k { OnlyOneSpeaksLast(records, k, m); }
      assert UserLast(records, k) || AssistantLast(records, k) || records[k].None?;
    }
  }

  lemma SpeakerKind(r: Option<Record>)
    requires Speaks(r)
    ensures r.None? || r.value.kind == Assistant || r.value.kind == User
  {
  }

  /** Exactly which records lead to each basis. */
  lemma BasisExactly(records: Records, clock: Clock)
    ensures var basis := BoundaryOf(records, clock).basis;
            && (basis == NoConversationalRecord <==> forall i :: 0 <= i < |records| ==> !Speaks(records[i]))
            && (basis == UndecodableRecord <==> exists k :: SpeaksLast(records, k) && records[k].None?)
            && (basis == ToolResultPending <==> exists k :: UserLast(records, k) && Returns(records[k].value))
            && (basis == HumanMessagePending <==> exists k :: UserLast(records, k) && !Returns(records[k].value))
            && (basis == UnresolvedHumanBlockingToolUse
                <==> exists k :: AssistantLast(records, k) && AsksHuman(records[k].value))
            && (basis == UnresolvedToolUse <==>
                  exists k ::
                      AssistantLast(records, k) && Calls(records[k].value) && !AsksHuman(records[k].value))
            && (basis == BackgroundTaskPending <==>
                  exists k :: AssistantLast(records, k) && !Calls(records[k].value) && SomeTaskRuns(records))
            && (basis == AssistantFinal <==>
                  exists k :: AssistantLast(records, k) && !Calls(records[k].value) && !SomeTaskRuns(records))
  {
    hide SomeTaskRuns, ActiveTasks, Speaks, AsksHuman, Returns, Calls, HasResult, HasCall, HasBlockingCall;
    LastDecisiveSpeaks(records);
    RunningExactly(records);
    var at := LastDecisive(records);
    if at.Some? {
      var k := at.value;
      SpeaksIsDecisive(records[k]);
      SpeakerKind(records[k]);
      forall m | SpeaksLast(records, m) ensures m == k { OnlyOneSpeaksLast(records, k, m); }
      assert UserLast(records, k) || AssistantLast(records, k) || records[k].None?;
    }
  }

  // ----- Corroboration and tool error -----

  /** A Stop hook ran after the last record that speaks. */
  ghost predicate HookAfter(records: Records) {
    exists k, h :: SpeaksLast(records, k) && k < h < |records| && records[h].Some? && records[h].value.kind == StopHook
  }

  predicate WrittenRecently(clock: Clock) {
    clock.mtime.Some? && clock.now - clock.mtime.value <= clock.activeWithin
  }

  predicate WrittenLongAgo(clock: Clock) {
    clock.mtime.Some? && clock.now - clock.mtime.value > clock.activeWithin
  }

  lemma HookAfterIs(records: Records)
    ensures LastDecisive(records).Some? ==>
              (HookAfter(records) <==> LastHook(records).Some? && LastHook(records).value > LastDecisive(records).value)
  {
    hide Speaks;
    LastDecisiveSpeaks(records);
    var at, hook := LastDecisive(records), LastHook(records);
    if at.Some? {
      forall m | SpeaksLast(records, m) ensures m == at.value { OnlyOneSpeaksLast(records, at.value, m); }
      if HookAfter(records) {
        var k, h :| SpeaksLast(records, k) && k < h < |records| && records[h].Some?
          && records[h].value.kind == StopHook;
        assert IsHook(records[h]);
      }
    }
  }

  /** A settled turn is contradicted exactly by a Stop hook after a record that keeps the turn, and
      otherwise confirmed exactly by a Stop hook, by a recent write under a kept turn, or by an old one
      under an ended turn. */
  lemma CorroborationExactly(records: Records, clock: Clock)
    ensures var c := BoundaryOf(records, clock).corroboration;
            && (c == False <==> KeepsTurn(records) && HookAfter(records))
            && (c == True <==>
                  || (HandsBack(records) && (HookAfter(records) || WrittenLongAgo(clock)))
                  || (KeepsTurn(records) && !HookAfter(records) && WrittenRecently(clock)))
  {
    hide HandsBack, KeepsTurn, CannotTell, HookAfter, EndedAndBasis;
    TurnExactly(records, clock);
    HookAfterIs(records);
    LastDecisiveSettles(records);
  }

  lemma LastDecisiveSettles(records: Records)
    ensures LastDecisive(records).None? ==> EndedAndBasis(records).0 == Unknown
  {
  }

  /** Record `w` opens the current turn: the last human turn or undecodable line, or the first record. */
  predicate Opens(records: Records, w: int) {
    && 0 <= w < |records|
    && (w == 0 || records[w].None?
        || (records[w].value.kind == User && !Returns(records[w].value) && !records[w].value.injected))
    && forall i :: w < i < |records| ==>
         records[i].Some?
           && !(records[i].value.kind == User && !Returns(records[i].value) && !records[i].value.injected)
  }

  predicate ShowsError(r: Record) {
    exists b :: 0 <= b < |r.blocks| && r.blocks[b].ToolResult? && r.blocks[b].isError
  }

  /** The last record of the current turn that carries a result or did not decode. */
  ghost predicate OutcomeLast(records: Records, h: int) {
    && 0 <= h < |records| && (records[h].None? || Returns(records[h].value))
    && (exists w :: w <= h && Opens(records, w))
    && forall i :: h < i < |records| ==> records[i].Some? && !Returns(records[i].value)
  }

  lemma {:induction false} ToolErrorTells(records: Records, from: nat)
    requires from <= |records|
    ensures (exists h :: from <= h < |records| && Told(records, h)) ==>
              forall h :: from <= h < |records| && Told(records, h) ==> ToolError(records, from) == Tells(records[h])
    ensures (forall h :: from <= h < |records| ==> !Told(records, h)) ==> ToolError(records, from) == False
  {
    hide HasResult, HasErrorResult;
    if from < |records| {
      var n := |records| - 1;
      var init := records[..n];
      if HasOutcome(records[n]) {
        assert Told(records, n);
      } else {
        ToolErrorTells(init, from);
        forall h | from <= h < n ensures Told(init, h) == Told(records, h) {
          assert forall i :: h < i < n ==> init[i] == records[i];
        }
      }
    }
  }

  predicate Told(records: Records, h: int) {
    0 <= h < |records| && HasOutcome(records[h]) && forall i :: h < i < |records| ==> !HasOutcome(records[i])
  }

  function Tells(r: Option<Record>): Tri {
    if r.None? then Unknown else if HasErrorResult(r.value) then True else False
  }

  lemma WindowOpens(records: Records)
    requires records != []
    ensures Opens(records, WindowStart(records))
    ensures forall w :: Opens(records, w) ==> w == WindowStart(records)
  {
    var at := WindowStart(records);
    forall i | 0 <= i < |records| && records[i].Some?
      ensures Returns(records[i].value) == HasResult(records[i].value)
    {
      SpeaksIsDecisive(records[i]);
    }
    forall i | at < i < |records| ensures !OpensWindow(records[i]) {
    }
    forall w | Opens(records, w) ensures w == at {
      assert (w > at ==> !OpensWindow(records[w])) && (at > 0 ==> OpensWindow(records[at]));
    }
  }

  /** The tool error is raised exactly if the last outcome of the current turn is an error, unknown
      exactly if that is a line that did not decode, and lowered in every other case. */
  lemma ToolErrorExactly(records: Records, clock: Clock)
    ensures var e := ObservationOf(records, clock).signals.toolError;
            && (e == True <==> exists h :: OutcomeLast(records, h) && records[h].Some? && ShowsError(records[h].value))
            && (e == Unknown <==> exists h :: OutcomeLast(records, h) && records[h].None?)
  {
    hide ToolError, Returns, ShowsError, HasResult, HasErrorResult;
    var from := WindowStart(records);
    ToolErrorTells(records, from);
    if records != [] {
      WindowOpens(records);
      forall h ensures OutcomeLast(records, h) <==> from <= h < |records| && Told(records, h) {
        OutcomeIsTold(records, from, h);
      }
      forall r: Record ensures ShowsError(r) == HasErrorResult(r) { ShowsErrorIs(r); }
    }
  }

  lemma ShowsErrorIs(r: Record)
    ensures ShowsError(r) == HasErrorResult(r)
  {
  }

  lemma OutcomeIsTold(records: Records, from: nat, h: int)
    requires records != [] && Opens(records, from) && forall w :: Opens(records, w) ==> w == from
    ensures OutcomeLast(records, h) <==> from <= h < |records| && Told(records, h)
  {
    hide Opens, Returns, HasResult;
    forall i | 0 <= i < |records| && records[i].Some?
      ensures Returns(records[i].value) == HasResult(records[i].value)
    {
      SpeaksIsDecisive(records[i]);
    }
  }
}
