/** What a companion pane shows after any run of appends, truncations and replacements of a session
    file, against a full replay of that file: for Claude Code and for Codex sessions. */
module UpdaterRuns {
  import opened Text
  import opened SummaryModel
  import opened ReducerLoop
  import opened Tail
  import opened SummaryUpdater
  import Claude = ClaudeReducer
  import ClaudeBatching
  import Codex = CodexReducer
  import CodexBatching

  lemma UpToOrderTransitive(a: Snapshot, b: Snapshot, c: Snapshot)
    requires AgreeUpToOrder(a, b) && AgreeUpToOrder(b, c)
    ensures AgreeUpToOrder(a, c)
  {
  }

  /** A counted malformed line overwrites everything in which the two could differ. */
  lemma MalformedLevels(s: Snapshot, s': Snapshot, malformed: nat)
    requires s.(turn := s'.turn, questions := s'.questions) == s' && malformed > 0
    ensures WithMalformed(s, malformed) == WithMalformed(s', malformed)
  {
  }

  lemma UpToOrderFields(s: Snapshot, s': Snapshot)
    requires Core(s) == Core(s')
    ensures s.(questions := s'.questions) == s'
  {
    assert s == Core(s).(questions := s.questions);
    assert s' == Core(s').(questions := s'.questions);
  }

  // ----- Claude Code sessions -----

  function ClaudeReduction(key: string): Reduction<Claude.ClaudeEvent> {
    (events, initial) => Claude.Reduce(key, events, initial)
  }

  /** After `past` came in batches, `s` and everything reduced into it later agree with a full replay
      up to the order of the questions. */
  ghost predicate ClaudeTracks(key: string, s: Snapshot, past: seq<Claude.ClaudeEvent>) {
    && Sound(s)
    && AgreeUpToOrder(s, Claude.Reduce(key, past, None))
    && forall ys :: AgreeUpToOrder(Claude.Reduce(key, ys, Some(s)), Claude.Reduce(key, past + ys, None))
  }

  lemma ClaudeReduceSound(key: string, events: seq<Claude.ClaudeEvent>, initial: Option<Snapshot>)
    requires SoundInitial(initial)
    ensures Sound(Claude.Reduce(key, events, initial))
  {
    ClaudeBatching.StartSound(key, initial);
    ClaudeBatching.FoldSound(Claude.Start(key, initial), events);
    ClaudeBatching.FinishSound(Claude.Fold(Claude.Start(key, initial), events));
  }

  lemma ClaudeFreshTracks(key: string, past: seq<Claude.ClaudeEvent>)
    ensures ClaudeTracks(key, Claude.Reduce(key, past, None), past)
  {
    hide Claude.Reduce, AgreeUpToOrder, Sound;
    ClaudeReduceSound(key, past, None);
    SelfAgrees(Claude.Reduce(key, past, None));
    forall ys
      ensures AgreeUpToOrder(Claude.Reduce(key, ys, Some(Claude.Reduce(key, past, None))),
                             Claude.Reduce(key, past + ys, None))
    {
      ClaudeBatching.BatchingUpToOrder(key, None, past, ys);
    }
  }

  lemma SelfAgrees(s: Snapshot)
    ensures AgreeUpToOrder(s, s) && CodexBatching.AgreeUpToTurn(s, s)
  {
  }

  lemma ClaudeBatchTracks(key: string, s: Snapshot, past: seq<Claude.ClaudeEvent>, more: seq<Claude.ClaudeEvent>)
    requires ClaudeTracks(key, s, past)
    ensures ClaudeTracks(key, Claude.Reduce(key, more, Some(s)), past + more)
  {
    hide Claude.Reduce, AgreeUpToOrder, Sound;
    var s' := Claude.Reduce(key, more, Some(s));
    ClaudeReduceSound(key, more, Some(s));
    forall ys ensures AgreeUpToOrder(Claude.Reduce(key, ys, Some(s')), Claude.Reduce(key, past + more + ys, None)) {
      ClaudeBatching.BatchingUpToOrder(key, Some(s), more, ys);
      assert past + more + ys == past + (more + ys);
      UpToOrderTransitive(Claude.Reduce(key, ys, Some(s')), Claude.Reduce(key, more + ys, Some(s)),
                          Claude.Reduce(key, past + more + ys, None));
    }
  }

  /** With no hypothesis on the transcript: after every run the updater shows what a full replay of the
      file shows, its questions perhaps in another order. One malformed line removes even that. */
  lemma ClaudeRunUpToOrder(key: string, files: seq<seq<byte>>, decode: Decoder<Claude.ClaudeEvent>)
    requires SeenRun(files)
    ensures var r, replay := Observed(files, decode, ClaudeReduction(key)),
            Replay(ClaudeReduction(key), Last(files), decode);
            && Placed(r, Last(files), decode)
            && AgreeUpToOrder(View(r), replay)
            && (r.malformed > 0 ==> View(r) == replay)
  {
    var apply := ClaudeReduction(key);
    ClaudeRunTracks(key, files, decode);
    var r, full := Observed(files, decode, apply), apply(AllEvents(Last(files), decode), None);
    if r.malformed > 0 {
      UpToOrderFields(r.current, full);
      MalformedLevels(r.current, full, r.malformed);
    }
  }

  lemma ClaudeRunTracks(key: string, files: seq<seq<byte>>, decode: Decoder<Claude.ClaudeEvent>)
    requires SeenRun(files)
    ensures var r := Observed(files, decode, ClaudeReduction(key));
            Placed(r, Last(files), decode) && ClaudeTracks(key, r.current, AllEvents(Last(files), decode))
  {
    hide ClaudeTracks, Claude.Reduce, Observed, SeenRun, Placed;
    forall past ensures ClaudeTracks(key, Claude.Reduce(key, past, None), past) {
      ClaudeFreshTracks(key, past);
    }
    forall s, past, more | ClaudeTracks(key, s, past)
      ensures ClaudeTracks(key, Claude.Reduce(key, more, Some(s)), past + more)
    {
      ClaudeBatchTracks(key, s, past, more);
    }
    RunKeeps(files, decode, ClaudeReduction(key), (s, past) => ClaudeTracks(key, s, past));
  }

  /** The added events ask again under no id that the cut forgets: no call id registered with an empty
      list is reused. */
  predicate ReusesNoForgottenId(key: string, before: seq<byte>, now: seq<byte>, decode: Decoder<Claude.ClaudeEvent>) {
    var l := Claude.Fold(Claude.Start(key, None), AllEvents(before, decode));
    ClaudeBatching.AvoidsAll(AddedEvents(before, now, decode), ClaudeBatching.Forgotten(l))
  }

  /** Since the updater last started over, no tick reused an id that the cut before it forgot. */
  predicate ClaudeInStep(key: string, files: seq<seq<byte>>, decode: Decoder<Claude.ClaudeEvent>) {
    files == []
    || (var past, now := files[..|files| - 1], Last(files);
        Shrank(Last(past), now)
          || (ClaudeInStep(key, past, decode) && ReusesNoForgottenId(key, Last(past), now, decode)))
  }

  lemma {:induction false} ClaudeInStepIs(key: string, files: seq<seq<byte>>, decode: Decoder<Claude.ClaudeEvent>)
    requires ClaudeInStep(key, files, decode)
    ensures InStep(files, decode, ClaudeReduction(key), more => false)
  {
    hide AllEvents, Claude.Reduce, Claude.Fold, Claude.Start, AddedEvents, Shrank;
    if files != [] && !Shrank(Last(files[..|files| - 1]), Last(files)) {
      var before, now := Last(files[..|files| - 1]), Last(files);
      ClaudeInStepIs(key, files[..|files| - 1], decode);
      ClaudeBatching.BatchingExact(key, None, AllEvents(before, decode), AddedEvents(before, now, decode));
    }
  }

  /** The Claude updater is exact after every run in which, since it last started over, no tick reused
      a call id that the cut before it forgot. */
  lemma ClaudeRunEqualsReplay(key: string, files: seq<seq<byte>>, decode: Decoder<Claude.ClaudeEvent>)
    requires SeenRun(files) && ClaudeInStep(key, files, decode)
    ensures View(Observed(files, decode, ClaudeReduction(key))) == Replay(ClaudeReduction(key), Last(files), decode)
  {
    hide Claude.Reduce, Observed, View, Replay, InStep, SeenRun, ClaudeInStep;
    ClaudeInStepIs(key, files, decode);
    RunEqualsReplay(files, decode, ClaudeReduction(key), (s, past) => true, more => false);
  }

  // ----- Codex sessions -----

  function CodexReduction(key: string): Reduction<Codex.CodexEvent> {
    (events, initial) => Codex.Reduce(key, events, initial)
  }

  lemma UpToTurnTransitive(a: Snapshot, b: Snapshot, c: Snapshot)
    requires CodexBatching.AgreeUpToTurn(a, b) && CodexBatching.AgreeUpToTurn(b, c)
    ensures CodexBatching.AgreeUpToTurn(a, c)
  {
    assert Core(a.(turn := c.turn)) == Core(a.(turn := b.turn)).(turn := c.turn);
    assert Core(b.(turn := c.turn)) == Core(b).(turn := c.turn);
  }

  /** After `past` came in batches, whatever their cuts lost: agreement up to the turn and the order of
      the questions for every continuation, and on every field once it holds a turn boundary. */
  ghost predicate CodexTracks(key: string, s: Snapshot, past: seq<Codex.CodexEvent>) {
    && Sound(s)
    && CodexBatching.AgreeUpToTurn(s, Codex.Reduce(key, past, None))
    && (forall ys :: CodexBatching.AgreeUpToTurn(Codex.Reduce(key, ys, Some(s)), Codex.Reduce(key, past + ys, None)))
    && (forall ys :: CodexBatching.HasBoundary(ys) ==>
          Codex.Reduce(key, ys, Some(s)) == Codex.Reduce(key, past + ys, None))
  }

  lemma CodexReduceSound(key: string, events: seq<Codex.CodexEvent>, initial: Option<Snapshot>)
    requires SoundInitial(initial)
    ensures Sound(Codex.Reduce(key, events, initial))
  {
    CodexBatching.StartSound(key, initial);
    CodexBatching.FoldSound(Codex.Start(key, initial), events);
  }

  lemma CodexFreshTracks(key: string, past: seq<Codex.CodexEvent>)
    ensures CodexTracks(key, Codex.Reduce(key, past, None), past)
  {
    hide Codex.Reduce, CodexBatching.AgreeUpToTurn, CodexBatching.HasBoundary, Sound;
    var s := Codex.Reduce(key, past, None);
    CodexReduceSound(key, past, None);
    SelfAgrees(s);
    forall ys ensures CodexBatching.AgreeUpToTurn(Codex.Reduce(key, ys, Some(s)), Codex.Reduce(key, past + ys, None)) {
      CodexBatching.BatchingUpToTurn(key, None, past, ys);
    }
    forall ys | CodexBatching.HasBoundary(ys)
      ensures Codex.Reduce(key, ys, Some(s)) == Codex.Reduce(key, past + ys, None)
    {
      CodexBatching.BoundaryReconverges(key, None, past, ys);
    }
  }

  lemma CodexBatchTracks(key: string, s: Snapshot, past: seq<Codex.CodexEvent>, more: seq<Codex.CodexEvent>)
    requires CodexTracks(key, s, past)
    ensures CodexTracks(key, Codex.Reduce(key, more, Some(s)), past + more)
  {
    hide Codex.Reduce, CodexBatching.AgreeUpToTurn, CodexBatching.HasBoundary, Sound;
    var s' := Codex.Reduce(key, more, Some(s));
    CodexReduceSound(key, more, Some(s));
    forall ys
      ensures CodexBatching.AgreeUpToTurn(Codex.Reduce(key, ys, Some(s')), Codex.Reduce(key, past + more + ys, None))
    {
      CodexBatching.BatchingUpToTurn(key, Some(s), more, ys);
      assert past + more + ys == past + (more + ys);
      UpToTurnTransitive(Codex.Reduce(key, ys, Some(s')), Codex.Reduce(key, more + ys, Some(s)),
                         Codex.Reduce(key, past + more + ys, None));
    }
    forall ys | CodexBatching.HasBoundary(ys)
      ensures Codex.Reduce(key, ys, Some(s')) == Codex.Reduce(key, past + more + ys, None)
    {
      CodexBatching.BoundaryReconverges(key, Some(s), more, ys);
      BoundaryStays(more, ys);
      assert past + more + ys == past + (more + ys);
    }
  }

  lemma BoundaryStays(more: seq<Codex.CodexEvent>, ys: seq<Codex.CodexEvent>)
    requires CodexBatching.HasBoundary(ys)
    ensures CodexBatching.HasBoundary(more + ys)
  {
    var i :| 0 <= i < |ys| && ys[i].TurnEnd?;
    assert (more + ys)[|more| + i].TurnEnd?;
  }

  lemma CodexRunTracks(key: string, files: seq<seq<byte>>, decode: Decoder<Codex.CodexEvent>)
    requires SeenRun(files)
    ensures var r := Observed(files, decode, CodexReduction(key));
            Placed(r, Last(files), decode) && CodexTracks(key, r.current, AllEvents(Last(files), decode))
  {
    hide CodexTracks, Codex.Reduce, Observed, SeenRun, Placed;
    forall past ensures CodexTracks(key, Codex.Reduce(key, past, None), past) {
      CodexFreshTracks(key, past);
    }
    forall s, past, more | CodexTracks(key, s, past)
      ensures CodexTracks(key, Codex.Reduce(key, more, Some(s)), past + more)
    {
      CodexBatchTracks(key, s, past, more);
    }
    RunKeeps(files, decode, CodexReduction(key), (s, past) => CodexTracks(key, s, past));
  }

  /** With no hypothesis on the rollout or its cuts: after every run the updater shows what a full
      replay shows on every field, except for the order of the questions and, while both show the
      questions as unknown, the turn. One malformed line removes even that. */
  lemma CodexRunUpToTurn(key: string, files: seq<seq<byte>>, decode: Decoder<Codex.CodexEvent>)
    requires SeenRun(files)
    ensures var r, replay := Observed(files, decode, CodexReduction(key)),
            Replay(CodexReduction(key), Last(files), decode);
            && Placed(r, Last(files), decode)
            && CodexBatching.AgreeUpToTurn(View(r), replay)
            && (r.malformed > 0 ==> View(r) == replay)
  {
    var apply := CodexReduction(key);
    CodexRunTracks(key, files, decode);
    var r, full := Observed(files, decode, apply), apply(AllEvents(Last(files), decode), None);
    if r.malformed > 0 {
      UpToOrderFields(r.current.(turn := full.turn), full);
      MalformedLevels(r.current, full, r.malformed);
    }
  }

  /** What keeps an updater in step that already was: an idle tick, or a cut that loses no open claim
      before events that ask again under no forgotten id. */
  predicate CutKeeps(key: string, before: seq<byte>, now: seq<byte>, decode: Decoder<Codex.CodexEvent>) {
    var l, more := Codex.Fold(Codex.Start(key, None), AllEvents(before, decode)), AddedEvents(before, now, decode);
    || more == []
    || (CodexBatching.CountKept(l) && forall i :: 0 <= i < |more| ==>
          CodexBatching.EventAvoids(more[i], CodexBatching.Forgotten(l)))
  }

  /** In step after the last tick: it started over, or it read a turn boundary, or the updater was in
      step and the cut kept it so. What any cut before the last boundary lost does not matter. */
  predicate CodexInStep(key: string, files: seq<seq<byte>>, decode: Decoder<Codex.CodexEvent>) {
    files == []
    || (var past, now := files[..|files| - 1], Last(files);
        || Shrank(Last(past), now)
        || CodexBatching.HasBoundary(AddedEvents(Last(past), now, decode))
        || (CodexInStep(key, past, decode) && CutKeeps(key, Last(past), now, decode)))
  }

  lemma CutKeepsIs(key: string, before: seq<byte>, now: seq<byte>, decode: Decoder<Codex.CodexEvent>)
    requires CutKeeps(key, before, now, decode)
    ensures HarmlessCut(before, now, decode, CodexReduction(key))
  {
    hide AllEvents, Codex.Reduce, Codex.Fold, Codex.Start, AddedEvents, CodexBatching.CountKept;
    var past, more := AllEvents(before, decode), AddedEvents(before, now, decode);
    if more == [] {
      CodexBatching.IdleBatch(key, None, past);
    } else {
      CodexBatching.BatchingExact(key, None, past, more);
    }
  }

  lemma {:induction false} CodexInStepIs(key: string, files: seq<seq<byte>>, decode: Decoder<Codex.CodexEvent>)
    requires CodexInStep(key, files, decode)
    ensures InStep(files, decode, CodexReduction(key), more => CodexBatching.HasBoundary(more))
  {
    hide CutKeeps, HarmlessCut, AddedEvents, Shrank, CodexBatching.HasBoundary;
    if files != [] {
      var past, now := files[..|files| - 1], Last(files);
      if CodexInStep(key, past, decode) && CutKeeps(key, Last(past), now, decode) {
        CodexInStepIs(key, past, decode);
        CutKeepsIs(key, Last(past), now, decode);
      }
    }
  }

  /** The Codex updater is exact after every run that is in step, whatever cuts before the last
      boundary lost. */
  lemma CodexRunEqualsReplay(key: string, files: seq<seq<byte>>, decode: Decoder<Codex.CodexEvent>)
    requires SeenRun(files) && CodexInStep(key, files, decode)
    ensures View(Observed(files, decode, CodexReduction(key))) == Replay(CodexReduction(key), Last(files), decode)
  {
    hide CodexTracks, Codex.Reduce, Observed, View, Replay, InStep, SeenRun, CodexInStep, CodexBatching.HasBoundary;
    CodexInStepIs(key, files, decode);
    forall past ensures CodexTracks(key, Codex.Reduce(key, past, None), past) {
      CodexFreshTracks(key, past);
    }
    forall s, past, more | CodexTracks(key, s, past)
      ensures CodexTracks(key, Codex.Reduce(key, more, Some(s)), past + more)
    {
      CodexBatchTracks(key, s, past, more);
    }
    forall s, past, more | CodexTracks(key, s, past) && CodexBatching.HasBoundary(more)
      ensures Codex.Reduce(key, more, Some(s)) == Codex.Reduce(key, past + more, None)
    {
      TracksHeal(key, s, past, more);
    }
    RunEqualsReplay(files, decode, CodexReduction(key), (s, past) => CodexTracks(key, s, past),
                    more => CodexBatching.HasBoundary(more));
  }

  lemma TracksHeal(key: string, s: Snapshot, past: seq<Codex.CodexEvent>, more: seq<Codex.CodexEvent>)
    requires CodexTracks(key, s, past) && CodexBatching.HasBoundary(more)
    ensures Codex.Reduce(key, more, Some(s)) == Codex.Reduce(key, past + more, None)
  {
    hide Codex.Reduce, CodexBatching.AgreeUpToTurn, CodexBatching.HasBoundary;
  }
}
