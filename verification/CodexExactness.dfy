/** The exact condition under which a cut is harmless for every continuation of a Codex rollout,
    with the continuations that expose any other cut. */
module CodexExactness {
  import opened Text
  import opened SummaryModel
  import opened OpenQuestions
  import opened ReducerLoop
  import opened CutWitness
  import opened CodexReducer
  import opened CodexBatching

  /** What a caller can check at the cut: the source is lost, or questions are unknown with none
      open, or questions are known and no open call is empty. */
  predicate SafeCut(l: Loop) {
    l.snap.integrity == Unknown || (if l.open.unknown then Flatten(l.open.pending) == [] else NoEmpty(l.open.pending))
  }

  /** A cut is harmless for every continuation if and only if it is safe. */
  lemma CutIsSafeExactly(key: string, initial: Option<Snapshot>, xs: seq<CodexEvent>)
    requires SoundInitial(initial)
    ensures SafeCut(Fold(Start(key, initial), xs)) <==> forall ys :: SplitAgrees(key, initial, xs, ys)
  {
    var l := Fold(Start(key, initial), xs);
    if SafeCut(l) {
      NoEmptyIds(l.open.pending);
      forall ys ensures SplitAgrees(key, initial, xs, ys) {
        BatchingExact(key, initial, xs, ys);
      }
    } else {
      ResumeReduces(key, initial, xs, []);
      var ys := [FullAsk()];
      if l.open.unknown {
        ExposeCount(l);
      } else {
        var i :| 0 <= i < |l.open.pending| && l.open.pending[i].claims == [];
        ExposeCut(l, i);
        ys := Exposing(l, i);
      }
      ResumeReduces(key, initial, xs, ys);
      assert !SplitAgrees(key, initial, xs, ys);
    }
  }

  function AskCall(id: string, n: nat): CodexEvent {
    Call(FunctionCallRecord(Some(ASK_TOOL), Some(id), "", NotAList, Questions(seq(n, i => QuestionItem("q")))))
  }

  lemma AskName()
    ensures BaseName(ASK_TOOL) == ASK_TOOL
  {
    PlainName(ASK_TOOL);
  }

  lemma {:induction false} PlainName(name: string)
    requires '.' !in name
    ensures BaseName(name) == name
  {
    if name != "" { PlainName(name[..|name| - 1]); }
  }

  lemma AskCallOp(id: string)
    requires id != ""
    ensures Op(AskCall(id, 1)) == Some(AskOne(id, RequestUserInput))
  {
    AskName();
    ManyQuestions(1, RequestUserInput, id);
  }

  // ----- Questions unknown with some still open: the lost count lets a later call through -----

  function FullAsk(): CodexEvent {
    AskCall("q", MAX_COLLECTION_ITEMS)
  }

  lemma FullAskTaken(o: Open)
    ensures Op(FullAsk()).Some?
    ensures Taken(o, FullAsk()) <==> Flatten(o.pending) == []
  {
    hide ClaimsOf, SanitizeText, Flatten, BaseName;
    AskName();
    ManyQuestions(MAX_COLLECTION_ITEMS, RequestUserInput, "q");
  }

  lemma AskTurn(s: Snapshot, id: string, n: nat, taken: bool)
    ensures var s' := Note(s, AskCall(id, n), taken);
            s'.integrity == s.integrity && s'.turn.kind == Some(if taken then RequestUserInput else FunctionCall)
  {
    hide SanitizeText, AppendRecent;
    AskName();
    assert ASK_TOOL[0] != PLAN_TOOL[0];
  }

  lemma ExposeCount(l: Loop)
    requires l.snap.integrity != Unknown && l.open.unknown && Flatten(l.open.pending) != []
    ensures Finish(Fold(l, [FullAsk()])) != Finish(Fold(Resumed(l), [FullAsk()]))
  {
    var r := Resumed(l);
    assert r.open == Open([], true);
    FullAskTaken(l.open);
    FullAskTaken(r.open);
    FoldOne(l, FullAsk());
    FoldOne(r, FullAsk());
    AskTurn(l.snap, "q", MAX_COLLECTION_ITEMS, false);
    AskTurn(r.snap, "q", MAX_COLLECTION_ITEMS, true);
  }

  lemma FoldOne(l: Loop, e: CodexEvent)
    ensures Fold(l, [e]) == Step(l, e)
  {
    assert [e][..0] == [];
  }

  // ----- Questions known, an empty call on record: its place in the order is lost -----

  function Outputs(p: Pending, id: string): seq<CodexEvent> {
    if p == [] then []
    else
      var last := p[|p| - 1].id;
      Outputs(p[..|p| - 1], id) + if last == id then [] else [Output(Some(last), "")]
  }

  function Exposing(l: Loop, i: nat): seq<CodexEvent>
    requires i < |l.open.pending|
  {
    var id := l.open.pending[i].id;
    Outputs(l.open.pending, id) + [AskCall(id + "'", 1)] + [AskCall(id, 1)]
  }

  lemma {:induction false} FoldOutputs(l: Loop, p: Pending, id: string)
    requires Distinct(l.open.pending)
    ensures Fold(l, Outputs(p, id)).snap.integrity == l.snap.integrity
    ensures Fold(l, Outputs(p, id)).open == l.open.(pending := Without(l.open.pending, OtherIds(p, id)))
  {
    hide SanitizeText, AppendRecent, FoldRecentResult;
    if p == [] {
      WithoutNone(l.open.pending);
    } else {
      var q, last := p[..|p| - 1], p[|p| - 1].id;
      FoldOutputs(l, q, id);
      if last != id {
        var events := Outputs(q, id) + [Output(Some(last), "")];
        assert events[..|events| - 1] == Outputs(q, id);
        WithoutAdd(l.open.pending, OtherIds(q, id), last);
      } else {
        assert Outputs(p, id) == Outputs(q, id);
        assert OtherIds(p, id) == OtherIds(q, id);
      }
    }
  }

  lemma FoldExposing(l: Loop, p: Pending, id: string)
    requires WellFormed(l.open.pending) && !l.open.unknown && id != ""
    requires Covered(l.open.pending, p, id) && Get(l.open.pending, id) == []
    ensures var end := Fold(l, Outputs(p, id) + [AskCall(id + "'", 1)] + [AskCall(id, 1)]);
            && end.snap.integrity == l.snap.integrity
            && end.open == Apply(Apply(Open(if Has(l.open.pending, id) then [Entry(id, [])] else [], false),
                                       AskOne(id + "'", RequestUserInput)), AskOne(id, RequestUserInput))
  {
    hide SanitizeText, AppendRecent, FoldRecentResult, NoteCall;
    var m := Fold(l, Outputs(p, id));
    FoldOutputs(l, p, id);
    AnsweredOthers(l.open, p, id);
    AskCallOp(id);
    AskCallOp(id + "'");
    FoldConcat(l, Outputs(p, id), [AskCall(id + "'", 1)]);
    FoldConcat(l, Outputs(p, id) + [AskCall(id + "'", 1)], [AskCall(id, 1)]);
    FoldOne(m, AskCall(id + "'", 1));
    var n := Step(m, AskCall(id + "'", 1));
    FoldOne(n, AskCall(id, 1));
    AskTurn(m.snap, id + "'", 1, Taken(m.open, AskCall(id + "'", 1)));
    AskTurn(n.snap, id, 1, Taken(n.open, AskCall(id, 1)));
  }

  lemma ExposeCut(l: Loop, i: nat)
    requires SoundLoop(l) && i < |l.open.pending| && l.open.pending[i].claims == []
    requires l.snap.integrity != Unknown && !l.open.unknown
    ensures Finish(Fold(l, Exposing(l, i))) != Finish(Fold(Resumed(l), Exposing(l, i)))
  {
    var p, id, r := l.open.pending, l.open.pending[i].id, Resumed(l);
    CutDrops(l.open, Finish(l), RequestUserInput, i);
    FoldExposing(l, p, id);
    FoldExposing(r, p, id);
    TwoAsks(id, true, RequestUserInput);
    TwoAsks(id, false, RequestUserInput);
    OrdersDiffer(id, RequestUserInput);
  }
}
