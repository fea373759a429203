/** What the turn-boundary scans of `observer/turn_boundary.py` agree on: one decisive record settles
    the turn, holes sit only where the signal window opens, and corroboration never decides. */
module TurnAgreement {
  import opened Text
  import opened TurnBoundary

  predicate Quiet(r: Option<Record>) {
    !Decisive(r) && (r.Some? ==> r.value.started.None? && r.value.finished.None?)
  }

  predicate NoneDecisive(records: Records) {
    forall i :: 0 <= i < |records| ==> !Decisive(records[i])
  }

  // ----- One record decides -----

  lemma {:induction false} LastDecisiveAt(before: Records, d: Option<Record>, after: Records)
    requires Decisive(d) && NoneDecisive(after)
    ensures LastDecisive(before + [d] + after) == Some(|before|)
  {
    var records := before + [d] + after;
    assert records[|before|] == d;
    forall i | |before| < i < |records| ensures !Decisive(records[i]) {
      assert records[i] == after[i - |before| - 1];
    }
  }

  /** The turn is settled by the last record that is a hole or a non-injected message, together with
      the background tasks still active; nothing before it matters otherwise. */
  lemma DecisiveRecordDecides(before: Records, d: Option<Record>, after: Records, clock: Clock)
    requires Decisive(d) && NoneDecisive(after)
    ensures var b := BoundaryOf(before + [d] + after, clock);
            (b.ended, b.basis) == Verdict(d, ActiveTasks(before + [d] + after) != {})
  {
    LastDecisiveAt(before, d, after);
  }

  /** No basis is reported exactly when no record is decisive. */
  lemma NoBasisExactly(records: Records, clock: Clock)
    ensures BoundaryOf(records, clock).basis == NoConversationalRecord <==> NoneDecisive(records)
  {
    var at := LastDecisive(records);
    if at.Some? { assert Decisive(records[at.value]); }
  }

  lemma {:induction false} ActiveTasksInsert(before: Records, quiet: Option<Record>, after: Records)
    requires quiet.Some? && quiet.value.started.None? && quiet.value.finished.None?
    ensures ActiveTasks(before + [quiet] + after) == ActiveTasks(before + after)
  {
    var long, short := before + [quiet] + after, before + after;
    if after == [] {
      assert short == before && long[..|long| - 1] == before;
    } else {
      assert long[..|long| - 1] == before + [quiet] + after[..|after| - 1];
      assert short[..|short| - 1] == before + after[..|after| - 1];
      ActiveTasksInsert(before, quiet, after[..|after| - 1]);
    }
  }

  lemma {:induction false} LastDecisiveInsert(before: Records, quiet: Option<Record>, after: Records)
    requires !Decisive(quiet)
    ensures var long, short := LastDecisive(before + [quiet] + after), LastDecisive(before + after);
            && long.Some? == short.Some?
            && (long.Some? ==> (before + [quiet] + after)[long.value] == (before + after)[short.value])
  {
    var long, short := before + [quiet] + after, before + after;
    if after == [] {
      assert short == before && long[..|long| - 1] == before;
    } else {
      assert long[..|long| - 1] == before + [quiet] + after[..|after| - 1];
      assert short[..|short| - 1] == before + after[..|after| - 1];
      LastDecisiveInsert(before, quiet, after[..|after| - 1]);
    }
  }

  /** A bookkeeping or injected record without a task marker, Stop-hook records included, changes
      neither the turn nor its basis, wherever it is inserted. */
  lemma BookkeepingIsInvisible(before: Records, quiet: Option<Record>, after: Records, clock: Clock)
    requires Quiet(quiet)
    ensures var long, short := BoundaryOf(before + [quiet] + after, clock), BoundaryOf(before + after, clock);
            long.ended == short.ended && long.basis == short.basis
  {
    hide ActiveTasks, LastDecisive, Verdict;
    LastDecisiveInsert(before, quiet, after);
    ActiveTasksInsert(before, quiet, after);
  }

  // ----- Corroboration -----

  /** Whatever the file time, the clock and the threshold, the turn and its basis are the same; and
      disagreement is reported exactly when a Stop hook fired after a record that kept the turn. */
  lemma CorroborationNeverDecides(records: Records, clock: Clock, other: Clock)
    ensures var b, c := BoundaryOf(records, clock), BoundaryOf(records, other);
            b.ended == c.ended && b.basis == c.basis && (b.corroboration == False <==> c.corroboration == False)
    ensures BoundaryOf(records, clock).corroboration == False <==>
            && BoundaryOf(records, clock).ended == False
            && exists h, d :: 0 <= d < h < |records| && IsHook(records[h]) && Decisive(records[d]) && forall i ::
                d < i < |records| ==> !Decisive(records[i])
  {
    var at, hook := LastDecisive(records), LastHook(records);
    if BoundaryOf(records, clock).ended == False {
      var d := at.value;
      if hook.Some? && hook.value > d {
        assert IsHook(records[hook.value]) && Decisive(records[d]);
      }
      forall h, e | 0 <= e < h < |records| && IsHook(records[h]) && Decisive(records[e])
        && (forall i :: e < i < |records| ==> !Decisive(records[i]))
        ensures hook.Some? && hook.value > d
      {
        assert e == d;
      }
    }
  }

  // ----- Holes -----

  /** A hole in the signal window can only be its first record. */
  lemma HoleOnlyAtWindowStart(records: Records)
    ensures HoleFrom(records, WindowStart(records)) <==> records != [] && records[WindowStart(records)].None?
    ensures forall i :: WindowStart(records) < i < |records| ==> records[i].Some?
  {
    var at := WindowStart(records);
    if HoleFrom(records, at) {
      var i :| at <= i < |records| && records[i].None?;
      assert OpensWindow(records[i]);
    }
    forall i | at < i < |records| ensures records[i].Some? {
      assert !OpensWindow(records[i]);
    }
  }

  /** The records are reported unparsed exactly when a line did not decode after the last human turn. */
  lemma UnparsedExactly(records: Records, clock: Clock)
    ensures ObservationOf(records, clock).signals.recordsParsed == False <==>
            exists h :: 0 <= h < |records| && records[h].None? && forall i :: h < i < |records| ==>
                !OpensWindow(records[i])
  {
    var at := WindowStart(records);
    HoleOnlyAtWindowStart(records);
    if records != [] && records[at].None? {
      assert forall i :: at < i < |records| ==> !OpensWindow(records[i]);
    }
    forall h | 0 <= h < |records| && records[h].None? && (forall i :: h < i < |records| ==> !OpensWindow(records[i]))
      ensures h == at
    {
      assert OpensWindow(records[h]);
      if h < at { assert OpensWindow(records[at]); }
    }
  }

  lemma {:induction false} ToolErrorUnknownExactly(records: Records, from: nat)
    requires from <= |records|
    ensures ToolError(records, from) == Unknown <==>
            exists h :: from <= h < |records| && records[h].None? && forall i :: h < i < |records| ==>
                !HasOutcome(records[i])
  {
    if from < |records| {
      var n := |records| - 1;
      var init, last := records[..n], records[n];
      if last.None? {
        assert records[n].None?;
      } else if HasResult(last.value) {
        assert HasOutcome(records[n]);
      } else {
        ToolErrorUnknownExactly(init, from);
        forall h | from <= h < n && records[h].None? && (forall i :: h < i < n ==> !HasOutcome(records[i]))
          ensures init[h].None? && forall i :: h < i < |init| ==> !HasOutcome(init[i])
        {
        }
        if ToolError(init, from) == Unknown {
          var h :| from <= h < |init| && init[h].None? && forall i :: h < i < |init| ==> !HasOutcome(init[i]);
          assert records[h].None?;
          forall i | h < i < |records| ensures !HasOutcome(records[i]) {
            if i < n { assert records[i] == init[i]; }
          }
        }
      }
    }
  }

  /** An undecodable basis, or an unknown tool error, is never reported as a fully parsed window. */
  lemma UncertainImpliesUnparsed(records: Records, clock: Clock)
    ensures var o := ObservationOf(records, clock);
            o.boundary.basis == UndecodableRecord || o.signals.toolError == Unknown ==> o.signals.recordsParsed == False
  {
    hide ToolError, HasResult, ActiveTasks;
    var o, start := ObservationOf(records, clock), WindowStart(records);
    if o.boundary.basis == UndecodableRecord {
      var at := LastDecisive(records).value;
      assert records[at].None?;
      assert start > 0 ==> Decisive(records[start]);
    }
    if o.signals.toolError == Unknown {
      ToolErrorUnknownExactly(records, start);
    }
  }

  lemma {:induction false} ToolErrorAt(records: Records, from: nat, at: nat)
    requires from <= at < |records| && HasOutcome(records[at])
    requires forall i :: at < i < |records| ==> !HasOutcome(records[i])
    ensures ToolError(records, from) ==
            if records[at].None? then Unknown else if HasErrorResult(records[at].value) then True else False
  {
    hide HasResult, HasErrorResult;
    var n := |records| - 1;
    if at < n {
      assert !HasOutcome(records[n]);
      assert records[..n][at] == records[at];
      forall i | at < i < |records[..n]| ensures !HasOutcome(records[..n][i]) {
        assert records[..n][i] == records[i];
      }
      ToolErrorAt(records[..n], from, at);
    }
  }

  lemma {:induction false} NoOutcomeNoError(records: Records, from: nat)
    requires from <= |records| && forall i :: from <= i < |records| ==> !HasOutcome(records[i])
    ensures ToolError(records, from) == False
  {
    hide HasResult, HasErrorResult;
    if from < |records| {
      assert !HasOutcome(records[|records| - 1]);
      NoOutcomeNoError(records[..|records| - 1], from);
    }
  }

  /** The last record that carries a tool outcome or did not decode. */
  function LastOutcome(records: Records): (at: Option<nat>)
    ensures at.Some? ==> at.value < |records| && HasOutcome(records[at.value])
    ensures at.Some? ==> forall i :: at.value < i < |records| ==> !HasOutcome(records[i])
    ensures at.None? ==> forall i :: 0 <= i < |records| ==> !HasOutcome(records[i])
  {
    if records == [] then None
    else if HasOutcome(records[|records| - 1]) then Some(|records| - 1)
    else LastOutcome(records[..|records| - 1])
  }

  /** The error scan reads blocks in records of any kind, the boundary scan messages only: an outcome
      past the boundary, which only a record of another kind can carry. */
  predicate Stray(records: Records) {
    var at, outcome := LastDecisive(records), LastOutcome(records);
    at.Some? && outcome.Some? && at.value < outcome.value
  }

  function OutcomeOf(r: Record): Tri {
    if HasErrorResult(r) then True else False
  }

  lemma StrayIsNoMessage(records: Records)
    ensures Stray(records) ==>
              records[LastOutcome(records).value].Some? && !IsMessage(records[LastOutcome(records).value].value)
  {
    if Stray(records) {
      var k := LastOutcome(records).value;
      assert !Decisive(records[k]);
    }
  }

  /** The window scan and the error scan read the same record as the boundary scan, unless an outcome
      strays past it: a pending tool result is the outcome reported, a pending human message means no
      outcome yet, and an undecodable boundary means an unknown outcome. A stray outcome is reported
      instead, whatever the boundary. */
  lemma ScansAgree(records: Records, clock: Clock)
    ensures var o := ObservationOf(records, clock);
            && (o.boundary.basis == HumanMessagePending ==> o.signals.recordsParsed == True)
            && (!Stray(records) ==>
                  && (o.boundary.basis == ToolResultPending ==>
                        o.signals.toolError == OutcomeOf(records[LastDecisive(records).value].value))
                  && (o.boundary.basis == HumanMessagePending ==> o.signals.toolError == False)
                  && (o.boundary.basis == UndecodableRecord ==> o.signals.toolError == Unknown))
            && (Stray(records) ==>
                  records[LastOutcome(records).value].Some?
                  && o.signals.toolError == OutcomeOf(records[LastOutcome(records).value].value))
  {
    hide HasErrorResult, HasResult, ToolError, ActiveTasks, HasCall, HasBlockingCall;
    var start, last, outcome := WindowStart(records), LastDecisive(records), LastOutcome(records);
    if last.Some? {
      var at := last.value;
      forall i | at < i < |records| ensures !OpensWindow(records[i]) {
        assert !Decisive(records[i]);
      }
      assert start <= at;
      if Stray(records) {
        StrayIsNoMessage(records);
        ToolErrorAt(records, start, outcome.value);
      } else if HasOutcome(records[at]) {
        ToolErrorAt(records, start, at);
      }
      if records[at].Some? && IsHumanTurn(records[at].value) {
        assert start == at;
        HoleOnlyAtWindowStart(records);
        if !Stray(records) { NoOutcomeNoError(records, start); }
      }
    }
  }

  /** It can happen: the same successful tool result pending, and an error reported from a bookkeeping
      record after it. */
  lemma StrayOutcomeShows(clock: Clock)
    ensures var result := Record(User, [ToolResult(false)], false, None, None);
            var stray := Record(TurnBoundary.Kind.Bookkeeping, [ToolResult(true)], false, None, None);
            && ObservationOf([Some(result)], clock).signals.toolError == False
            && ObservationOf([Some(result), Some(stray)], clock).signals.toolError == True
            && ObservationOf([Some(result)], clock).boundary.basis == ToolResultPending
            && ObservationOf([Some(result), Some(stray)], clock).boundary.basis == ToolResultPending
  {
    var result := Record(User, [ToolResult(false)], false, None, None);
    var stray := Record(TurnBoundary.Kind.Bookkeeping, [ToolResult(true)], false, None, None);
    assert result.blocks[0].ToolResult? && stray.blocks[0].isError;
    assert [Some(result), Some(stray)][..1] == [Some(result)];
    assert HasResult(result) && HasResult(stray) && HasErrorResult(stray) && !HasErrorResult(result);
    assert LastDecisive([Some(result)]) == Some(0);
    assert LastDecisive([Some(result), Some(stray)]) == Some(0);
  }

  // ----- The adapter's scan -----

  predicate ToolUseBasis(b: Basis) {
    b == UnresolvedToolUse || b == UnresolvedHumanBlockingToolUse
  }

  predicate TrailingToolUse(records: Records) {
    LastConversational(records).Some? && LastConversational(records).value.kind == Assistant
      && HasCall(LastConversational(records).value)
  }

  function Decoded(records: Records): Records {
    if records == [] then []
    else Decoded(records[..|records| - 1]) + if records[|records| - 1].Some? then [records[|records| - 1]] else []
  }

  lemma {:induction false} ConversationalIsDecisive(records: Records)
    ensures LastDecisive(records).None? ==> LastConversational(records) == None
    ensures LastDecisive(records).Some? && records[LastDecisive(records).value].Some? ==>
              LastConversational(records) == records[LastDecisive(records).value]
  {
    hide Decisive;
    if records != [] && !Decisive(records[|records| - 1]) { ConversationalIsDecisive(records[..|records| - 1]); }
  }

  lemma {:induction false} ConversationalIgnoresHoles(records: Records)
    ensures LastConversational(Decoded(records)) == LastConversational(records)
  {
    hide Decisive;
    if records != [] {
      var init, last := records[..|records| - 1], records[|records| - 1];
      ConversationalIgnoresHoles(init);
      if last.Some? {
        assert Decoded(records)[..|Decoded(records)| - 1] == Decoded(init);
      } else {
        assert Decoded(records) == Decoded(init);
      }
    }
  }

  lemma BlockingCallIsCall(r: Record)
    ensures HasBlockingCall(r) ==> HasCall(r)
  {
    if HasBlockingCall(r) {
      var i :| 0 <= i < |r.blocks| && r.blocks[i].ToolUse? && r.blocks[i].name == HUMAN_BLOCKING_TOOL;
      assert r.blocks[i].ToolUse?;
    }
  }

  /** The boundary names an open tool call exactly when the adapter's forward scan does and no hole
      hides the end of the session. */
  lemma AdapterAgrees(records: Records, clock: Clock)
    ensures ToolUseBasis(BoundaryOf(records, clock).basis) <==>
            TrailingToolUse(records) && BoundaryOf(records, clock).basis != UndecodableRecord
    ensures TrailingToolUse(records) <==> TrailingToolUse(Decoded(records))
  {
    hide HasCall, HasBlockingCall, HasResult, ActiveTasks;
    ConversationalIsDecisive(records);
    ConversationalIgnoresHoles(records);
    var at := LastDecisive(records);
    if at.Some? && records[at.value].Some? { BlockingCallIsCall(records[at.value].value); }
  }

  /** The adapter cannot see what a hole hides: it still reports the open call under one. */
  lemma AdapterLooksThroughHoles(before: Records, call: Record, clock: Clock)
    requires call.kind == Assistant && HasCall(call)
    ensures TrailingToolUse(before + [Some(call)] + [None])
    ensures BoundaryOf(before + [Some(call)] + [None], clock).basis == UndecodableRecord
  {
    var records := before + [Some(call)] + [None];
    assert records[..|records| - 1] == before + [Some(call)];
    assert records[..|records| - 1][..|before|] == before;
  }

  // ----- Sources that publish their own boundary -----

  datatype EventKind = Message | TurnEnd | Error | OtherEvent
  datatype EventBasis = EventTurnBoundary | EventMessagePending | NoEventBasis

  /** The last kind among events that satisfies one of two tests decides. */
  function Ended(kinds: seq<EventKind>): (Tri, EventBasis) {
    if kinds == [] then (Unknown, NoEventBasis)
    else
      match kinds[|kinds| - 1]
      case TurnEnd => (True, EventTurnBoundary)
      case Message => (False, EventMessagePending)
      case _ => Ended(kinds[..|kinds| - 1])
  }

  function EventError(kinds: seq<EventKind>): Tri {
    if kinds == [] then False
    else
      match kinds[|kinds| - 1]
      case TurnEnd => False
      case Error => True
      case _ => EventError(kinds[..|kinds| - 1])
  }

  /** `derive_signals_from_events`. */
  method DeriveSignalsFromEvents(kinds: seq<EventKind>) returns (ended: Tri, basis: EventBasis, error: Tri)
    ensures (ended, basis) == Ended(kinds)
    ensures error == if kinds == [] then Unknown else EventError(kinds)
  {
    ended, basis := Unknown, NoEventBasis;
    var n := |kinds|;
    assert kinds[..n] == kinds;
    while n > 0
      invariant 0 <= n <= |kinds|
      invariant (ended, basis) == (Unknown, NoEventBasis) && Ended(kinds) == Ended(kinds[..n])
    {
      assert kinds[..n][..n - 1] == kinds[..n - 1];
      if kinds[n - 1] == TurnEnd {
        ended, basis := True, EventTurnBoundary;
        break;
      }
      if kinds[n - 1] == Message {
        ended, basis := False, EventMessagePending;
        break;
      }
      n := n - 1;
    }
    error := if kinds == [] then Unknown else False;
    n := |kinds|;
    while n > 0
      invariant 0 <= n <= |kinds| && (n > 0 || kinds == [] || EventError(kinds) == False)
      invariant error == (if kinds == [] then Unknown else False) && EventError(kinds) == EventError(kinds[..n])
    {
      assert kinds[..n][..n - 1] == kinds[..n - 1];
      if kinds[n - 1] == TurnEnd { break; }
      if kinds[n - 1] == Error {
        error := True;
        break;
      }
      n := n - 1;
    }
  }

  lemma {:induction false} EndedIff(kinds: seq<EventKind>)
    ensures Ended(kinds).0 == True
            <==> exists b :: 0 <= b < |kinds| && kinds[b] == TurnEnd && forall i :: b < i < |kinds| ==>
                kinds[i] != Message
    ensures Ended(kinds).0 == False
            <==> exists m :: 0 <= m < |kinds| && kinds[m] == Message && forall i :: m < i < |kinds| ==>
                kinds[i] != TurnEnd && kinds[i] != Message
  {
    if kinds != [] {
      var n := |kinds| - 1;
      EndedIff(kinds[..n]);
      assert kinds == kinds[..n] + [kinds[n]];
    }
  }

  /** The turn ended exactly when a boundary has no message after it; an error is open exactly when no
      boundary came after it. */
  lemma {:induction false} ErrorIff(kinds: seq<EventKind>)
    ensures EventError(kinds) == True
            <==> exists e :: 0 <= e < |kinds| && kinds[e] == Error && forall i :: e < i < |kinds| ==>
                kinds[i] != TurnEnd
  {
    if kinds != [] {
      var n := |kinds| - 1;
      ErrorIff(kinds[..n]);
      assert kinds == kinds[..n] + [kinds[n]];
    }
  }
}
