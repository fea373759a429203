/** When reducing a Claude transcript in batches gives what one full replay gives. */
module ClaudeBatching {
  import opened Text
  import opened SummaryModel
  import opened OpenQuestions
  import opened ReducerLoop
  import opened ClaudeReducer

  // ----- A step reads neither the questions nor, for its lasting part, any overwritten field -----

  lemma {:induction false} NoteOutcomesCore(s: Snapshot, s': Snapshot, outcomes: seq<ToolOutcome>)
    ensures Core(s) == Core(s') ==> Core(NoteOutcomes(s, outcomes)) == Core(NoteOutcomes(s', outcomes))
    ensures Kept(s) == Kept(s') ==> Kept(NoteOutcomes(s, outcomes)) == Kept(NoteOutcomes(s', outcomes))
    ensures NoteOutcomes(s, outcomes).integrity == s.integrity && NoteOutcomes(s, outcomes).reasons == s.reasons
  {
    hide SanitizeText, AppendRecent, FoldRecentResult;
    if outcomes != [] { NoteOutcomesCore(s, s', outcomes[..|outcomes| - 1]); }
  }

  lemma NoteCallCore(s: Snapshot, s': Snapshot, c: ToolCall)
    ensures Core(s) == Core(s') ==> Core(NoteCall(s, c)) == Core(NoteCall(s', c))
    ensures Kept(s) == Kept(s') ==> Kept(NoteCall(s, c)) == Kept(NoteCall(s', c))
  {
    hide SanitizeText, AppendRecent, FoldRecentResult;
  }

  lemma {:induction false} NoteCallsCore(s: Snapshot, s': Snapshot, calls: seq<ToolCall>)
    ensures Core(s) == Core(s') ==> Core(NoteCalls(s, calls)) == Core(NoteCalls(s', calls))
    ensures Kept(s) == Kept(s') ==> Kept(NoteCalls(s, calls)) == Kept(NoteCalls(s', calls))
  {
    hide SanitizeText, AppendRecent, FoldRecentResult;
    if calls != [] {
      var rest, last := calls[..|calls| - 1], calls[|calls| - 1];
      NoteCallsCore(s, s', rest);
      NoteCallCore(NoteCalls(s, rest), NoteCalls(s', rest), last);
    }
  }

  lemma {:induction false} NoteCallsTrusted(s: Snapshot, calls: seq<ToolCall>)
    ensures Trusted(s) ==> Trusted(NoteCalls(s, calls))
    ensures s.integrity == Unknown ==> NoteCalls(s, calls).integrity == Unknown
    ensures (forall i :: 0 <= i < |calls| ==> HasName(calls[i])) ==> NoteCalls(s, calls).integrity == s.integrity
  {
    hide SanitizeText, AppendRecent, FoldRecentResult;
    if calls != [] {
      var rest, last := calls[..|calls| - 1], calls[|calls| - 1];
      NoteCallsTrusted(s, rest);
      if !HasName(last) { UnknownTrusted(NoteCalls(s, rest), ClaudeToolName); }
    }
  }

  lemma NoteCore(s: Snapshot, s': Snapshot, e: ClaudeEvent)
    requires Core(s) == Core(s')
    ensures Core(Note(s, e)) == Core(Note(s', e))
  {
    hide SanitizeText, AppendRecent, FoldRecentResult;
    match e
    case User(task, outcomes, injected, text) =>
      var t := if task.Some? then RegisterTask(s, task.value) else s;
      var t' := if task.Some? then RegisterTask(s', task.value) else s';
      assert Core(t) == Core(t');
      NoteOutcomesCore(t, t', outcomes);
    case Assistant(said, calls) => NoteCallsCore(NoteSaid(s, said), NoteSaid(s', said), calls);
    case _ =>
  }

  lemma NoteKept(s: Snapshot, s': Snapshot, e: ClaudeEvent)
    requires Kept(s) == Kept(s')
    ensures Kept(Note(s, e)) == Kept(Note(s', e))
  {
    hide SanitizeText, AppendRecent, FoldRecentResult;
    match e
    case User(task, outcomes, injected, text) =>
      var t := if task.Some? then RegisterTask(s, task.value) else s;
      var t' := if task.Some? then RegisterTask(s', task.value) else s';
      NoteOutcomesCore(t, t', outcomes);
    case Assistant(said, calls) => NoteCallsCore(NoteSaid(s, said), NoteSaid(s', said), calls);
    case _ =>
  }

  lemma RegisterTrusted(s: Snapshot, task: string)
    ensures Trusted(s) ==> Trusted(RegisterTask(s, task))
    ensures s.integrity == Unknown ==> RegisterTask(s, task).integrity == Unknown
  {
    hide SanitizeText, AppendRecent, FoldRecentResult;
    UnknownTrusted(s, ClaudeBackgroundTasks);
  }

  /** A broken source stays broken, and always says why. */
  lemma NoteTrusted(s: Snapshot, e: ClaudeEvent)
    ensures Trusted(s) ==> Trusted(Note(s, e))
    ensures s.integrity == Unknown ==> Note(s, e).integrity == Unknown
  {
    hide SanitizeText, AppendRecent, FoldRecentResult;
    match e
    case Undecodable => UnknownTrusted(s, ClaudePayload);
    case User(task, outcomes, injected, text) =>
      var t := if task.Some? then RegisterTask(s, task.value) else s;
      if task.Some? { RegisterTrusted(s, task.value); }
      NoteOutcomesCore(t, t, outcomes);
    case Assistant(said, calls) => NoteCallsTrusted(NoteSaid(s, said), calls);
    case _ =>
  }

  // ----- Well-formedness of what an event asks -----

  lemma {:induction false} OutcomeOpsAnswer(outcomes: seq<ToolOutcome>)
    ensures forall i :: 0 <= i < |OutcomeOps(outcomes)| ==> OutcomeOps(outcomes)[i].Answer?
  {
    if outcomes != [] { OutcomeOpsAnswer(outcomes[..|outcomes| - 1]); }
  }

  lemma {:induction false} CallOpsAsk(calls: seq<ToolCall>)
    ensures forall i :: 0 <= i < |CallOps(calls)| ==> CallOps(calls)[i].Ask? && ValidOp(CallOps(calls)[i])
  {
    if calls != [] { CallOpsAsk(calls[..|calls| - 1]); }
  }

  lemma OpsValid(e: ClaudeEvent)
    ensures forall i :: 0 <= i < |Ops(e)| ==> ValidOp(Ops(e)[i])
    ensures Boundary !in Ops(e)
  {
    match e
    case User(_, outcomes, _, _) => OutcomeOpsAnswer(outcomes);
    case Assistant(_, calls) => CallOpsAsk(calls);
    case _ =>
  }

  lemma {:induction false} FoldSound(l: Loop, events: seq<ClaudeEvent>)
    requires SoundLoop(l)
    ensures SoundLoop(Fold(l, events))
  {
    if events != [] {
      FoldSound(l, events[..|events| - 1]);
      var m, e := Fold(l, events[..|events| - 1]), events[|events| - 1];
      NoteTrusted(m.snap, e);
      OpsValid(e);
      ApplyAllBounded(m.open, Ops(e));
    }
  }

  lemma StartSound(key: string, initial: Option<Snapshot>)
    requires SoundInitial(initial)
    ensures SoundLoop(Start(key, initial))
  {
    var s := Start(key, initial).snap;
    GroupWellFormed([], s.questions.items);
  }

  lemma FinishSound(l: Loop)
    requires SoundLoop(l)
    ensures Sound(Finish(l))
  {
  }

  // ----- The simulation between the full replay and the resumed one -----

  /** The state a new batch starts from after a cut at `l`. */
  function Resumed(l: Loop): Loop {
    Start("", Some(Finish(l)))
  }

  ghost predicate Simulates(l: Loop, l': Loop, ids: set<string>) {
    || (l.snap.integrity == Unknown && l.snap.reasons != [] && Kept(l.snap) == Kept(l'.snap))
    || (Core(l.snap) == Core(l'.snap) && l.open.unknown && l'.open.unknown)
    || (Core(l.snap) == Core(l'.snap) && SameOrder(l.open, l'.open, ids))
  }

  predicate EventAvoids(e: ClaudeEvent, ids: set<string>) {
    forall i :: 0 <= i < |Ops(e)| ==> Avoids(Ops(e)[i], ids)
  }

  predicate AvoidsAll(events: seq<ClaudeEvent>, ids: set<string>) {
    forall i :: 0 <= i < |events| ==> EventAvoids(events[i], ids)
  }

  lemma StepSimulates(l: Loop, l': Loop, e: ClaudeEvent, ids: set<string>)
    requires Simulates(l, l', ids) && EventAvoids(e, ids)
    ensures Simulates(Step(l, e), Step(l', e), ids)
  {
    OpsValid(e);
    if l.snap.integrity == Unknown && l.snap.reasons != [] && Kept(l.snap) == Kept(l'.snap) {
      NoteKept(l.snap, l'.snap, e);
      NoteTrusted(l.snap, e);
    } else if l.open.unknown && l'.open.unknown {
      NoteCore(l.snap, l'.snap, e);
      UnknownStays(l.open, Ops(e));
      UnknownStays(l'.open, Ops(e));
    } else {
      NoteCore(l.snap, l'.snap, e);
      ApplyAllSameOrder(l.open, l'.open, Ops(e), ids);
    }
  }

  lemma {:induction false} FoldSimulates(l: Loop, l': Loop, events: seq<ClaudeEvent>, ids: set<string>)
    requires Simulates(l, l', ids) && AvoidsAll(events, ids)
    ensures Simulates(Fold(l, events), Fold(l', events), ids)
  {
    if events != [] {
      var n := |events| - 1;
      assert AvoidsAll(events[..n], ids);
      FoldSimulates(l, l', events[..n], ids);
      assert EventAvoids(events[n], ids);
      StepSimulates(Fold(l, events[..n]), Fold(l', events[..n]), events[n], ids);
    }
  }

  lemma FinishSimulates(l: Loop, l': Loop, ids: set<string>)
    requires Simulates(l, l', ids)
    ensures Finish(l) == Finish(l')
  {
    if l.snap.integrity == Unknown && l.snap.reasons != [] && Kept(l.snap) == Kept(l'.snap) {
      CloseKept(l, l', AskUserQuestion);
    } else {
      if !(l.open.unknown && l'.open.unknown) { ShownSame(l.open, l'.open, AskUserQuestion, ids); }
      CloseSame(l, l', AskUserQuestion);
    }
  }

  /** The ids a cut would forget: calls recorded with no question, while questions still count. */
  function Forgotten(l: Loop): set<string> {
    if l.snap.integrity == Unknown || l.open.unknown then {} else EmptyIds(l.open.pending)
  }

  lemma CutSimulates(l: Loop)
    requires SoundLoop(l)
    ensures Simulates(l, Resumed(l), Forgotten(l))
  {
    var s := Finish(l);
    if l.snap.integrity != Unknown {
      assert Core(s) == Core(l.snap);
      if !l.open.unknown {
        CutKeepsOrder(l.open, s, AskUserQuestion);
      }
    }
  }

  ghost predicate SplitAgrees(key: string, initial: Option<Snapshot>, xs: seq<ClaudeEvent>, ys: seq<ClaudeEvent>) {
    Reduce(key, ys, Some(Reduce(key, xs, initial))) == Reduce(key, xs + ys, initial)
  }

  lemma ResumeReduces(key: string, initial: Option<Snapshot>, xs: seq<ClaudeEvent>, ys: seq<ClaudeEvent>)
    ensures var l := Fold(Start(key, initial), xs);
            && Reduce(key, ys, Some(Reduce(key, xs, initial))) == Finish(Fold(Resumed(l), ys))
            && Reduce(key, xs + ys, initial) == Finish(Fold(l, ys))
  {
    FoldConcat(Start(key, initial), xs, ys);
  }

  /** Batching is exact whenever the second batch asks again under no id that the cut forgets. */
  lemma BatchingExact(key: string, initial: Option<Snapshot>, xs: seq<ClaudeEvent>, ys: seq<ClaudeEvent>)
    requires SoundInitial(initial)
    requires AvoidsAll(ys, Forgotten(Fold(Start(key, initial), xs)))
    ensures SplitAgrees(key, initial, xs, ys)
  {
    var l := Fold(Start(key, initial), xs);
    ResumeReduces(key, initial, xs, ys);
    StartSound(key, initial);
    FoldSound(Start(key, initial), xs);
    CutSimulates(l);
    FoldSimulates(l, Resumed(l), ys, Forgotten(l));
    FinishSimulates(Fold(l, ys), Fold(Resumed(l), ys), Forgotten(l));
  }

  // ----- Unconditionally: only the order of the questions can differ -----

  ghost predicate SimulatesLoosely(l: Loop, l': Loop) {
    Simulates(l, l', {}) || (Core(l.snap) == Core(l'.snap) && SameContent(l.open, l'.open))
  }

  lemma {:induction false} FoldSimulatesLoosely(l: Loop, l': Loop, events: seq<ClaudeEvent>)
    requires SimulatesLoosely(l, l')
    ensures SimulatesLoosely(Fold(l, events), Fold(l', events))
  {
    if events != [] {
      var n := |events| - 1;
      FoldSimulatesLoosely(l, l', events[..n]);
      var m, m', e := Fold(l, events[..n]), Fold(l', events[..n]), events[n];
      OpsValid(e);
      if Simulates(m, m', {}) {
        StepSimulates(m, m', e, {});
      } else {
        NoteCore(m.snap, m'.snap, e);
        ApplyAllSameContent(m.open, m'.open, Ops(e));
      }
    }
  }

  /** For every cut and every continuation the two results agree on every field, and list the
      same questions, perhaps in another order. */
  lemma BatchingUpToOrder(key: string, initial: Option<Snapshot>, xs: seq<ClaudeEvent>, ys: seq<ClaudeEvent>)
    requires SoundInitial(initial)
    ensures AgreeUpToOrder(Reduce(key, ys, Some(Reduce(key, xs, initial))), Reduce(key, xs + ys, initial))
  {
    var l := Fold(Start(key, initial), xs);
    ResumeReduces(key, initial, xs, ys);
    StartSound(key, initial);
    FoldSound(Start(key, initial), xs);
    CutSimulates(l);
    FoldSimulatesLoosely(l, Resumed(l), ys);
    var m, m' := Fold(l, ys), Fold(Resumed(l), ys);
    if Simulates(m, m', {}) {
      FinishSimulates(m, m', {});
    } else {
      CloseSameContent(m, m', AskUserQuestion);
    }
  }
}
