/** Who holds the turn (`observer/turn_boundary.py`): three backward scans over a session's records,
    with undecodable lines as holes, and the forward scan of `ingest/adapters/claude_code.py` that
    must agree with them. */
module TurnBoundary {
  import opened Text

  datatype Tri = True | False | Unknown

  datatype Block = ToolUse(name: string) | ToolResult(isError: bool) | OtherBlock
  datatype Kind = User | Assistant | StopHook | Bookkeeping

  /** A decoded record. `injected` is its channel classification; `started` and `finished` are the
      background task ids its structured markers name. */
  datatype Record = Record(kind: Kind, blocks: seq<Block>, injected: bool, started: Option<string>,
                           finished: Option<string>)

  /** `None` is a line that did not decode. */
  type Records = seq<Option<Record>>

  const HUMAN_BLOCKING_TOOL := "AskUserQuestion"

  predicate HasResult(r: Record) {
    exists i :: 0 <= i < |r.blocks| && r.blocks[i].ToolResult?
  }

  predicate HasErrorResult(r: Record) {
    exists i :: 0 <= i < |r.blocks| && r.blocks[i].ToolResult? && r.blocks[i].isError
  }

  predicate HasCall(r: Record) {
    exists i :: 0 <= i < |r.blocks| && r.blocks[i].ToolUse?
  }

  predicate HasBlockingCall(r: Record) {
    exists i :: 0 <= i < |r.blocks| && r.blocks[i].ToolUse? && r.blocks[i].name == HUMAN_BLOCKING_TOOL
  }

  predicate IsMessage(r: Record) {
    r.kind == User || r.kind == Assistant
  }

  /** `_is_human_turn`. */
  predicate IsHumanTurn(r: Record) {
    r.kind == User && !HasResult(r) && !r.injected
  }

  /** `active_background_task_ids`. */
  function ActiveTasks(records: Records): set<string> {
    if records == [] then {}
    else
      var before, last := ActiveTasks(records[..|records| - 1]), records[|records| - 1];
      if last.None? then before
      else
        var begun := if last.value.started.Some? then before + {last.value.started.value} else before;
        if last.value.finished.Some? then begun - {last.value.finished.value} else begun
  }

  datatype Basis =
    | AssistantFinal | UnresolvedToolUse | UnresolvedHumanBlockingToolUse | BackgroundTaskPending
    | ToolResultPending | HumanMessagePending | NoConversationalRecord | UndecodableRecord

  /** A record the boundary scan stops at: a hole, or a message that is not injected. */
  predicate Decisive(r: Option<Record>) {
    r.None? || (IsMessage(r.value) && (r.value.kind == User ==> HasResult(r.value) || !r.value.injected))
  }

  /** What a decisive record says about the turn. */
  function Verdict(r: Option<Record>, active: bool): (Tri, Basis)
    requires Decisive(r)
  {
    if r.None? then (Unknown, UndecodableRecord)
    else if r.value.kind == User then (False, if HasResult(r.value) then ToolResultPending else HumanMessagePending)
    else if HasBlockingCall(r.value) then (True, UnresolvedHumanBlockingToolUse)
    else if HasCall(r.value) then (False, UnresolvedToolUse)
    else if active then (False, BackgroundTaskPending)
    else (True, AssistantFinal)
  }

  function LastDecisive(records: Records): (at: Option<nat>)
    ensures at.Some? ==> at.value < |records| && Decisive(records[at.value])
    ensures at.Some? ==> forall i :: at.value < i < |records| ==> !Decisive(records[i])
    ensures at.None? ==> forall i :: 0 <= i < |records| ==> !Decisive(records[i])
  {
    if records == [] then None
    else if Decisive(records[|records| - 1]) then Some(|records| - 1)
    else LastDecisive(records[..|records| - 1])
  }

  function EndedAndBasis(records: Records): (Tri, Basis) {
    var at := LastDecisive(records);
    if at.None? then (Unknown, NoConversationalRecord) else Verdict(records[at.value], ActiveTasks(records) != {})
  }

  /** Store mtime and clock, in seconds, with the recency threshold. */
  datatype Clock = Clock(mtime: Option<real>, now: real, activeWithin: real)

  predicate IsHook(r: Option<Record>) {
    r.Some? && r.value.kind == StopHook
  }

  function LastHook(records: Records): (at: Option<nat>)
    ensures at.Some? ==> at.value < |records| && IsHook(records[at.value])
    ensures at.Some? ==> forall i :: at.value < i < |records| ==> !IsHook(records[i])
    ensures at.None? ==> forall i :: 0 <= i < |records| ==> !IsHook(records[i])
  {
    if records == [] then None
    else if IsHook(records[|records| - 1]) then Some(|records| - 1)
    else LastHook(records[..|records| - 1])
  }

  function Corroboration(ended: Tri, records: Records, boundary: Option<nat>, clock: Clock): Tri {
    if ended == Unknown || boundary.None? then Unknown
    else
      var hook := LastHook(records);
      var after := hook.Some? && hook.value > boundary.value;
      if after && ended != True then False
      else
        var recent := clock.mtime.Some? && clock.now - clock.mtime.value <= clock.activeWithin;
        if after || (clock.mtime.Some? && (recent <==> ended == False)) then True else Unknown
  }

  datatype Boundary = Boundary(ended: Tri, basis: Basis, corroboration: Tri)

  function BoundaryOf(records: Records, clock: Clock): Boundary {
    var (ended, basis) := EndedAndBasis(records);
    Boundary(ended, basis, Corroboration(ended, records, LastDecisive(records), clock))
  }

  /** `_corroborate`. */
  method Corroborate(ended: Tri, records: Records, boundary: Option<nat>, clock: Clock) returns (c: Tri)
    ensures c == Corroboration(ended, records, boundary, clock)
  {
    var agrees := false;
    if ended != Unknown && boundary.Some? {
      var hook: Option<nat> := None;
      for i := 0 to |records|
        invariant hook == LastHook(records[..i])
      {
        assert records[..i + 1][..i] == records[..i];
        if IsHook(records[i]) { hook := Some(i); }
      }
      assert records[..|records|] == records;
      if hook.Some? && hook.value > boundary.value {
        if ended == True { agrees := true; } else { return False; }
      }
      if clock.mtime.Some? {
        var age := clock.now - clock.mtime.value;
        if ended == False && age <= clock.activeWithin {
          agrees := true;
        } else if ended == True && age > clock.activeWithin {
          agrees := true;
        }
      }
    }
    c := if agrees then True else Unknown;
  }

  /** `derive_turn_boundary`. */
  method DeriveTurnBoundary(records: Records, clock: Clock) returns (b: Boundary)
    ensures b == BoundaryOf(records, clock)
  {
    hide ActiveTasks, HasResult, HasCall, HasBlockingCall;
    var ended, basis, boundary: Option<nat> := Unknown, NoConversationalRecord, None;
    var n := |records|;
    assert records[..n] == records;
    while n > 0
      invariant 0 <= n <= |records|
      invariant ended == Unknown && basis == NoConversationalRecord && boundary == None
      invariant LastDecisive(records) == LastDecisive(records[..n])
    {
      var record := records[n - 1];
      assert records[..n][..n - 1] == records[..n - 1];
      if record.None? {
        basis, boundary := UndecodableRecord, Some(n - 1);
        break;
      }
      var r := record.value;
      if !IsMessage(r) {
        n := n - 1;
        continue;
      }
      if r.kind == User {
        if HasResult(r) {
          ended, basis, boundary := False, ToolResultPending, Some(n - 1);
          break;
        }
        if IsHumanTurn(r) {
          ended, basis, boundary := False, HumanMessagePending, Some(n - 1);
          break;
        }
        n := n - 1;
        continue;
      }
      boundary := Some(n - 1);
      if HasCall(r) {
        if HasBlockingCall(r) {
          ended, basis := True, UnresolvedHumanBlockingToolUse;
        } else {
          ended, basis := False, UnresolvedToolUse;
        }
        break;
      }
      NoCallNoBlockingCall(r);
      if ActiveTasks(records) != {} {
        ended, basis := False, BackgroundTaskPending;
      } else {
        ended, basis := True, AssistantFinal;
      }
      break;
    }
    var corroboration := Corroborate(ended, records, boundary, clock);
    b := Boundary(ended, basis, corroboration);
  }

  lemma NoCallNoBlockingCall(r: Record)
    requires !HasCall(r)
    ensures !HasBlockingCall(r)
  {
  }

  // ----- The window and the tool error -----

  predicate OpensWindow(r: Option<Record>) {
    r.None? || IsHumanTurn(r.value)
  }

  /** Where the current turn begins: the last human turn or hole, or the start of the file. */
  function WindowStart(records: Records): (at: nat)
    ensures at <= |records| && (records != [] ==> at < |records|)
    ensures forall i :: at < i < |records| ==> !OpensWindow(records[i])
    ensures at > 0 ==> OpensWindow(records[at])
  {
    if records == [] then 0
    else if OpensWindow(records[|records| - 1]) then |records| - 1
    else WindowStart(records[..|records| - 1])
  }

  /** `_window_start`. */
  method FindWindowStart(records: Records) returns (at: nat)
    ensures at == WindowStart(records)
  {
    var n := |records|;
    assert records[..n] == records;
    while n > 0
      invariant 0 <= n <= |records|
      invariant WindowStart(records) == WindowStart(records[..n])
    {
      assert records[..n][..n - 1] == records[..n - 1];
      if records[n - 1].None? { return n - 1; }
      if IsHumanTurn(records[n - 1].value) { return n - 1; }
      n := n - 1;
    }
    return 0;
  }

  predicate HasOutcome(r: Option<Record>) {
    r.None? || HasResult(r.value)
  }

  /** The most recent tool outcome from index `from` on. */
  function ToolError(records: Records, from: nat): Tri
    requires from <= |records|
    decreases |records|
  {
    if from == |records| then False
    else
      var last := records[|records| - 1];
      if last.None? then Unknown
      else if HasResult(last.value) then (if HasErrorResult(last.value) then True else False)
      else ToolError(records[..|records| - 1], from)
  }

  /** `_unresolved_tool_error`. */
  method UnresolvedToolError(records: Records, from: nat) returns (e: Tri)
    requires from <= |records|
    ensures e == ToolError(records, from)
  {
    hide HasResult, HasErrorResult;
    var n := |records|;
    assert records[..n] == records;
    while n > from
      invariant from <= n <= |records|
      invariant ToolError(records, from) == ToolError(records[..n], from)
    {
      assert records[..n][..n - 1] == records[..n - 1];
      if records[n - 1].None? { return Unknown; }
      if HasResult(records[n - 1].value) {
        return if HasErrorResult(records[n - 1].value) then True else False;
      }
      n := n - 1;
    }
    return False;
  }

  datatype Signals = Signals(sourceReadable: Tri, recordsParsed: Tri, toolError: Tri, turnEnded: Tri)
  datatype Observation = Observation(signals: Signals, boundary: Boundary)

  predicate HoleFrom(records: Records, from: nat) {
    exists i :: from <= i < |records| && records[i].None?
  }

  function ObservationOf(records: Records, clock: Clock): Observation {
    var start, boundary := WindowStart(records), BoundaryOf(records, clock);
    Observation(Signals(True, if HoleFrom(records, start) then False else True, ToolError(records, start),
                        boundary.ended), boundary)
  }

  /** `derive_signals`. */
  method DeriveSignals(records: Records, clock: Clock) returns (o: Observation)
    ensures o == ObservationOf(records, clock)
  {
    hide BoundaryOf, ToolError;
    var start := FindWindowStart(records);
    var parsed := True;
    for i := start to |records|
      invariant parsed == if HoleFrom(records[..i], start) then False else True
    {
      assert forall j :: start <= j < i ==> records[..i + 1][j] == records[..i][j];
      if records[i].None? {
        assert records[..i + 1][i].None?;
        parsed := False;
      }
    }
    assert records[..|records|] == records;
    var boundary := DeriveTurnBoundary(records, clock);
    var error := UnresolvedToolError(records, start);
    o := Observation(Signals(True, parsed, error, boundary.ended), boundary);
  }

  // ----- The adapter's forward scan -----

  /** `last_conversational_record`: holes are skipped, injected records are looked through. */
  function LastConversational(records: Records): Option<Record> {
    if records == [] then None
    else
      var last := records[|records| - 1];
      if last.Some? && Decisive(last) then last else LastConversational(records[..|records| - 1])
  }

  /** `has_unresolved_trailing_tool_use`. */
  method HasUnresolvedTrailingToolUse(records: Records) returns (unresolved: bool)
    ensures unresolved <==> LastConversational(records).Some? && LastConversational(records).value.kind == Assistant
                            && HasCall(LastConversational(records).value)
  {
    var last: Option<Record> := None;
    for i := 0 to |records|
      invariant last == LastConversational(records[..i])
    {
      assert records[..i + 1][..i] == records[..i];
      if records[i].None? || !IsMessage(records[i].value) { continue; }
      var r := records[i].value;
      if r.kind == User && !HasResult(r) && r.injected { continue; }
      last := records[i];
    }
    assert records[..|records|] == records;
    unresolved := last.Some? && last.value.kind == Assistant && HasCall(last.value);
  }
}
