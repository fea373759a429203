/** When reducing a Codex rollout in batches gives what one full replay gives, what can differ
    otherwise, and where the two meet again. */
module CodexBatching {
  import opened Text
  import opened SummaryModel
  import opened OpenQuestions
  import opened ReducerLoop
  import opened CodexReducer

  lemma NoteCore(s: Snapshot, s': Snapshot, e: CodexEvent, taken: bool)
    requires Core(s) == Core(s')
    ensures Core(Note(s, e, taken)) == Core(Note(s', e, taken))
  {
    hide SanitizeText, AppendRecent, FoldRecentResult;
  }

  /** The lasting part of a snapshot does not depend on whether a question call was taken up. */
  lemma NoteKept(s: Snapshot, s': Snapshot, e: CodexEvent, taken: bool, taken': bool)
    requires Kept(s) == Kept(s')
    ensures Kept(Note(s, e, taken)) == Kept(Note(s', e, taken'))
  {
    hide SanitizeText, AppendRecent, FoldRecentResult;
  }

  lemma NoteTrusted(s: Snapshot, e: CodexEvent, taken: bool)
    ensures Trusted(s) ==> Trusted(Note(s, e, taken))
    ensures s.integrity == Unknown ==> Note(s, e, taken).integrity == Unknown
  {
    hide SanitizeText, AppendRecent, FoldRecentResult, WithUnknown;
    UnknownTrusted(s, CodexPayload);
    UnknownTrusted(s, CodexToolName);
  }

  /** The snapshot apart from `questions` and `turn`. */
  function Turnless(s: Snapshot): Snapshot {
    Core(s).(turn := UnknownClaim(NoTurnBoundary))
  }

  lemma NoteTurnless(s: Snapshot, s': Snapshot, e: CodexEvent, taken: bool, taken': bool)
    requires Turnless(s) == Turnless(s')
    ensures Turnless(Note(s, e, taken)) == Turnless(Note(s', e, taken'))
    ensures e.TurnEnd? ==> Core(Note(s, e, taken)) == Core(Note(s', e, taken'))
  {
    hide SanitizeText, AppendRecent, FoldRecentResult;
  }

  lemma OpValid(e: CodexEvent)
    ensures Op(e).Some? ==> ValidOp(Op(e).value)
    ensures Op(e) == Some(Boundary) <==> e.TurnEnd?
  {
  }

  lemma {:induction false} FoldSound(l: Loop, events: seq<CodexEvent>)
    requires SoundLoop(l)
    ensures SoundLoop(Fold(l, events))
  {
    if events != [] {
      FoldSound(l, events[..|events| - 1]);
      var m, e := Fold(l, events[..|events| - 1]), events[|events| - 1];
      NoteTrusted(m.snap, e, Taken(m.open, e));
      OpValid(e);
      if Op(e).Some? { ApplyBounded(m.open, Op(e).value); }
    }
  }

  lemma StartSound(key: string, initial: Option<Snapshot>)
    requires SoundInitial(initial)
    ensures SoundLoop(Start(key, initial))
  {
    GroupWellFormed([], Start(key, initial).snap.questions.items);
  }

  function Resumed(l: Loop): Loop {
    Start("", Some(Finish(l)))
  }

  // ----- Four ways in which the full replay and the resumed one can be related -----

  ghost predicate Broken(l: Loop, l': Loop) {
    l.snap.integrity == Unknown && l.snap.reasons != [] && Kept(l.snap) == Kept(l'.snap)
  }

  ghost predicate Aligned(l: Loop, l': Loop, ids: set<string>) {
    Core(l.snap) == Core(l'.snap) && SameOrder(l.open, l'.open, ids)
  }

  ghost predicate Reordered(l: Loop, l': Loop) {
    Core(l.snap) == Core(l'.snap) && SameContent(l.open, l'.open)
  }

  /** Questions are unknown on both sides, and the counts behind them may differ. */
  ghost predicate Diverged(l: Loop, l': Loop) {
    && Turnless(l.snap) == Turnless(l'.snap) && l.open.unknown && l'.open.unknown
  }

  ghost predicate Met(l: Loop, l': Loop, ids: set<string>) {
    Broken(l, l') || Aligned(l, l', ids)
  }

  ghost predicate Related(l: Loop, l': Loop) {
    Broken(l, l') || Reordered(l, l') || Diverged(l, l')
  }

  predicate EventAvoids(e: CodexEvent, ids: set<string>) {
    Op(e).Some? ==> Avoids(Op(e).value, ids)
  }

  lemma StepBroken(l: Loop, l': Loop, e: CodexEvent)
    requires Broken(l, l')
    ensures Broken(Step(l, e), Step(l', e))
  {
    NoteKept(l.snap, l'.snap, e, Taken(l.open, e), Taken(l'.open, e));
    NoteTrusted(l.snap, e, Taken(l.open, e));
  }

  lemma StepReordered(l: Loop, l': Loop, e: CodexEvent)
    requires Reordered(l, l')
    ensures Reordered(Step(l, e), Step(l', e))
  {
    OpValid(e);
    if Op(e).Some? {
      SameCount(l.open, l'.open, Op(e).value);
      ApplySameContent(l.open, l'.open, Op(e).value);
    }
    NoteCore(l.snap, l'.snap, e, Taken(l.open, e));
  }

  lemma TurnEndTurns(l: Loop, l': Loop, e: CodexEvent)
    requires Turnless(l.snap) == Turnless(l'.snap) && e.TurnEnd?
    ensures Core(Step(l, e).snap) == Core(Step(l', e).snap)
  {
    hide SanitizeText, AppendRecent, FoldRecentResult;
    NoteTurnless(l.snap, l'.snap, e, Taken(l.open, e), Taken(l'.open, e));
  }

  lemma TurnEndClears(o: Open, e: CodexEvent)
    requires e.TurnEnd?
    ensures Advance(o, e) == Open([], false)
    ensures SameOrder(Open([], false), Open([], false), {})
  {
  }

  lemma StepDiverged(l: Loop, l': Loop, e: CodexEvent)
    requires Diverged(l, l') && !e.TurnEnd?
    ensures Diverged(Step(l, e), Step(l', e))
  {
    hide SanitizeText, AppendRecent, FoldRecentResult;
    OpValid(e);
    NoteTurnless(l.snap, l'.snap, e, Taken(l.open, e), Taken(l'.open, e));
  }

  lemma StepRelated(l: Loop, l': Loop, e: CodexEvent)
    requires Related(l, l')
    ensures Related(Step(l, e), Step(l', e))
    ensures Broken(l, l') ==> Broken(Step(l, e), Step(l', e))
    ensures Reordered(l, l') ==> Reordered(Step(l, e), Step(l', e))
    ensures e.TurnEnd? ==> Met(Step(l, e), Step(l', e), {})
  {
    if Broken(l, l') { StepBroken(l, l', e); }
    if Reordered(l, l') { StepReordered(l, l', e); }
    if Diverged(l, l') && !e.TurnEnd? { StepDiverged(l, l', e); }
    if !Broken(l, l') && e.TurnEnd? {
      TurnEndTurns(l, l', e);
      TurnEndClears(l.open, e);
      TurnEndClears(l'.open, e);
    }
  }

  lemma StepMet(l: Loop, l': Loop, e: CodexEvent, ids: set<string>)
    requires Met(l, l', ids) && EventAvoids(e, ids)
    ensures Met(Step(l, e), Step(l', e), ids)
  {
    hide SanitizeText, AppendRecent, FoldRecentResult;
    if Broken(l, l') {
      StepBroken(l, l', e);
    } else {
      OpValid(e);
      if Op(e).Some? {
        SameCount(l.open, l'.open, Op(e).value);
        ApplySameOrder(l.open, l'.open, Op(e).value, ids);
      }
      NoteCore(l.snap, l'.snap, e, Taken(l.open, e));
    }
  }

  lemma {:induction false} FoldMet(l: Loop, l': Loop, events: seq<CodexEvent>, ids: set<string>)
    requires Met(l, l', ids) && forall i :: 0 <= i < |events| ==> EventAvoids(events[i], ids)
    ensures Met(Fold(l, events), Fold(l', events), ids)
  {
    if events != [] {
      var n := |events| - 1;
      FoldMet(l, l', events[..n], ids);
      StepMet(Fold(l, events[..n]), Fold(l', events[..n]), events[n], ids);
    }
  }

  lemma {:induction false} FoldRelated(l: Loop, l': Loop, events: seq<CodexEvent>)
    requires Related(l, l')
    ensures Related(Fold(l, events), Fold(l', events))
    ensures Broken(l, l') ==> Broken(Fold(l, events), Fold(l', events))
    ensures Reordered(l, l') ==> Reordered(Fold(l, events), Fold(l', events))
  {
    hide Broken, Reordered, Diverged, Step;
    if events != [] {
      var n := |events| - 1;
      FoldRelated(l, l', events[..n]);
      StepRelated(Fold(l, events[..n]), Fold(l', events[..n]), events[n]);
    }
  }

  lemma {:induction false} FoldPastBoundary(l: Loop, l': Loop, events: seq<CodexEvent>, b: nat)
    requires Related(l, l') && b < |events| && events[b].TurnEnd?
    ensures Met(Fold(l, events), Fold(l', events), {})
  {
    hide Broken, Reordered, Diverged, Aligned, Step;
    var n := |events| - 1;
    if b == n {
      FoldRelated(l, l', events[..n]);
      StepRelated(Fold(l, events[..n]), Fold(l', events[..n]), events[n]);
    } else {
      FoldPastBoundary(l, l', events[..n], b);
      StepMet(Fold(l, events[..n]), Fold(l', events[..n]), events[n], {});
    }
  }

  lemma FinishMet(l: Loop, l': Loop, ids: set<string>)
    requires Met(l, l', ids)
    ensures Finish(l) == Finish(l')
  {
    if Broken(l, l') {
      CloseKept(l, l', RequestUserInput);
    } else {
      ShownSame(l.open, l'.open, RequestUserInput, ids);
      CloseSame(l, l', RequestUserInput);
    }
  }

  /** The ids a cut would forget, when nothing else is lost. */
  function Forgotten(l: Loop): set<string> {
    if l.snap.integrity == Unknown || l.open.unknown then {} else EmptyIds(l.open.pending)
  }

  /** No open claim is lost at the cut: they are all shown, or there is none. */
  predicate CountKept(l: Loop) {
    l.snap.integrity == Unknown || !l.open.unknown || Flatten(l.open.pending) == []
  }

  lemma CutMet(l: Loop)
    requires SoundLoop(l) && CountKept(l)
    ensures Met(l, Resumed(l), Forgotten(l))
  {
    var s := Finish(l);
    if l.snap.integrity != Unknown {
      assert Core(s) == Core(l.snap);
      if l.open.unknown {
        EmptyCutKeepsContent(l.open);
      } else {
        CutKeepsOrder(l.open, s, RequestUserInput);
      }
    }
  }

  lemma CutRelated(l: Loop)
    requires SoundLoop(l)
    ensures Related(l, Resumed(l))
    ensures CountKept(l) ==> Broken(l, Resumed(l)) || Reordered(l, Resumed(l))
  {
    if CountKept(l) {
      CutMet(l);
    } else {
      assert Core(Finish(l)) == Core(l.snap);
    }
  }

  // ----- The theorems -----

  ghost predicate SplitAgrees(key: string, initial: Option<Snapshot>, xs: seq<CodexEvent>, ys: seq<CodexEvent>) {
    Reduce(key, ys, Some(Reduce(key, xs, initial))) == Reduce(key, xs + ys, initial)
  }

  lemma ResumeReduces(key: string, initial: Option<Snapshot>, xs: seq<CodexEvent>, ys: seq<CodexEvent>)
    requires SoundInitial(initial)
    ensures var l := Fold(Start(key, initial), xs);
            && SoundLoop(l)
            && Reduce(key, ys, Some(Reduce(key, xs, initial))) == Finish(Fold(Resumed(l), ys))
            && Reduce(key, xs + ys, initial) == Finish(Fold(l, ys))
  {
    FoldConcat(Start(key, initial), xs, ys);
    StartSound(key, initial);
    FoldSound(Start(key, initial), xs);
  }

  /** Batching is exact when the cut keeps the count and no forgotten id is asked about again. */
  lemma BatchingExact(key: string, initial: Option<Snapshot>, xs: seq<CodexEvent>, ys: seq<CodexEvent>)
    requires SoundInitial(initial)
    requires CountKept(Fold(Start(key, initial), xs))
    requires forall i :: 0 <= i < |ys| ==> EventAvoids(ys[i], Forgotten(Fold(Start(key, initial), xs)))
    ensures SplitAgrees(key, initial, xs, ys)
  {
    var l := Fold(Start(key, initial), xs);
    ResumeReduces(key, initial, xs, ys);
    CutMet(l);
    FoldMet(l, Resumed(l), ys, Forgotten(l));
    FinishMet(Fold(l, ys), Fold(Resumed(l), ys), Forgotten(l));
  }

  predicate HasBoundary(events: seq<CodexEvent>) {
    exists i :: 0 <= i < |events| && events[i].TurnEnd?
  }

  /** Whatever the cut lost, one later turn boundary brings the two replays together for good. */
  lemma BoundaryReconverges(key: string, initial: Option<Snapshot>, xs: seq<CodexEvent>, ys: seq<CodexEvent>)
    requires SoundInitial(initial) && HasBoundary(ys)
    ensures SplitAgrees(key, initial, xs, ys)
  {
    var l := Fold(Start(key, initial), xs);
    ResumeReduces(key, initial, xs, ys);
    CutRelated(l);
    var i :| 0 <= i < |ys| && ys[i].TurnEnd?;
    FoldPastBoundary(l, Resumed(l), ys, i);
    FinishMet(Fold(l, ys), Fold(Resumed(l), ys), {});
  }

  /** Every field agrees, apart from the order of the questions and, while both show the questions as
      unknown, the turn. */
  ghost predicate AgreeUpToTurn(s: Snapshot, s': Snapshot) {
    AgreeUpToOrder(s.(turn := s'.turn), s') && (s.turn != s'.turn ==> s.questions.provenance == Unknown)
  }

  /** Related loops end in snapshots that agree so far. */
  lemma RelatedAgree(m: Loop, m': Loop)
    requires Related(m, m')
    ensures AgreeUpToTurn(Finish(m'), Finish(m))
    ensures Broken(m, m') || Reordered(m, m') ==> Finish(m').turn == Finish(m).turn
  {
    if Broken(m, m') {
      CloseKept(m, m', RequestUserInput);
    } else if Reordered(m, m') {
      CloseSameContent(m, m', RequestUserInput);
    } else {
      CloseDiverged(m, m');
    }
  }

  /** After a cut that lost open claims both replays show the same questions. */
  lemma LostClaimsShowAlike(l: Loop, ys: seq<CodexEvent>)
    requires SoundLoop(l) && !CountKept(l)
    ensures Finish(Fold(l, ys)).questions == Finish(Fold(Resumed(l), ys)).questions
  {
    hide Related, Fold;
    CutRelated(l);
    FoldRelated(l, Resumed(l), ys);
    if i :| 0 <= i < |ys| && ys[i].TurnEnd? {
      FoldPastBoundary(l, Resumed(l), ys, i);
      FinishMet(Fold(l, ys), Fold(Resumed(l), ys), {});
    } else {
      FoldUnknown(l, ys);
      FoldUnknown(Resumed(l), ys);
      UnknownShowsAlike(Fold(l, ys), Fold(Resumed(l), ys));
    }
  }

  lemma UnknownShowsAlike(m: Loop, m': Loop)
    requires Related(m, m') && m.open.unknown && m'.open.unknown
    ensures Finish(m).questions == Finish(m').questions
  {
    if Broken(m, m') { CloseKept(m, m', RequestUserInput); }
  }

  /** For every cut and continuation, all fields but the order of the questions agree, except that
      after a cut that loses open claims the turn may differ until questions are known again. */
  lemma BatchingUpToTurn(key: string, initial: Option<Snapshot>, xs: seq<CodexEvent>, ys: seq<CodexEvent>)
    requires SoundInitial(initial)
    ensures var s, s' := Reduce(key, ys, Some(Reduce(key, xs, initial))), Reduce(key, xs + ys, initial);
            && AgreeUpToTurn(s, s')
            && (CountKept(Fold(Start(key, initial), xs)) ==> s.turn == s'.turn)
            && (!CountKept(Fold(Start(key, initial), xs)) ==> s.questions == s'.questions)
  {
    hide Broken, Reordered, Diverged, CountKept, Finish, Fold, Start, AgreeUpToTurn;
    var l := Fold(Start(key, initial), xs);
    ResumeReduces(key, initial, xs, ys);
    CutRelated(l);
    FoldRelated(l, Resumed(l), ys);
    RelatedAgree(Fold(l, ys), Fold(Resumed(l), ys));
    if !CountKept(l) { LostClaimsShowAlike(l, ys); }
  }

  /** A batch without events changes nothing. */
  lemma IdleBatch(key: string, initial: Option<Snapshot>, xs: seq<CodexEvent>)
    requires SoundInitial(initial)
    ensures SplitAgrees(key, initial, xs, [])
  {
    var l := Fold(Start(key, initial), xs);
    ResumeReduces(key, initial, xs, []);
    if CountKept(l) {
      CutMet(l);
      FinishMet(l, Resumed(l), Forgotten(l));
    }
  }

  lemma CloseDiverged(m: Loop, m': Loop)
    requires Diverged(m, m')
    ensures Finish(m').(turn := Finish(m).turn) == Finish(m)
  {
    var q := Shown(m.open, RequestUserInput);
    assert m.snap.(questions := q) == Turnless(m.snap).(questions := q, turn := m.snap.turn);
    assert m'.snap.(questions := q) == Turnless(m'.snap).(questions := q, turn := m'.snap.turn);
  }

  lemma {:induction false} FoldUnknown(l: Loop, events: seq<CodexEvent>)
    requires l.open.unknown && forall i :: 0 <= i < |events| ==> !events[i].TurnEnd?
    ensures Fold(l, events).open.unknown
  {
    if events != [] {
      var n := |events| - 1;
      FoldUnknown(l, events[..n]);
      OpValid(events[n]);
    }
  }
}
