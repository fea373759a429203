/** The exact condition under which a cut is harmless for every continuation of a Claude transcript,
    with the continuation that exposes any other cut. */
module ClaudeExactness {
  import opened Text
  import opened SummaryModel
  import opened OpenQuestions
  import opened ReducerLoop
  import opened CutWitness
  import opened ClaudeReducer
  import opened ClaudeBatching

  /** What a caller can check at the cut: nothing is shown any more, or no open call is empty. */
  predicate SafeCut(l: Loop) {
    l.snap.integrity == Unknown || l.open.unknown || NoEmpty(l.open.pending)
  }

  /** A cut is harmless for every continuation if and only if it is safe. */
  lemma CutIsSafeExactly(key: string, initial: Option<Snapshot>, xs: seq<ClaudeEvent>)
    requires SoundInitial(initial)
    ensures SafeCut(Fold(Start(key, initial), xs)) <==> forall ys :: SplitAgrees(key, initial, xs, ys)
  {
    var l := Fold(Start(key, initial), xs);
    if SafeCut(l) {
      NoEmptyIds(l.open.pending);
      forall ys ensures SplitAgrees(key, initial, xs, ys) {
        BatchingExact(key, initial, xs, ys);
      }
    } else {
      StartSound(key, initial);
      FoldSound(Start(key, initial), xs);
      var i :| 0 <= i < |l.open.pending| && l.open.pending[i].claims == [];
      ExposeCut(l, i);
      ResumeReduces(key, initial, xs, Exposing(l, i));
      assert !SplitAgrees(key, initial, xs, Exposing(l, i));
    }
  }

  /** No transcript that never asks an empty question list has an unsafe cut. */
  lemma {:induction false} NonEmptyAsksAreSafe(key: string, xs: seq<ClaudeEvent>)
    requires forall i :: 0 <= i < |xs| ==> AsksSomething(xs[i])
    ensures NoEmpty(Fold(Start(key, None), xs).open.pending)
  {
    if xs != [] {
      var n := |xs| - 1;
      NonEmptyAsksAreSafe(key, xs[..n]);
      ApplyAllNoEmpty(Fold(Start(key, None), xs[..n]).open, Ops(xs[n]));
    }
  }

  predicate AsksSomething(e: ClaudeEvent) {
    forall i :: 0 <= i < |Ops(e)| ==> !(Usable(Ops(e)[i]) && Ops(e)[i].claims.value == [])
  }

  lemma {:induction false} ApplyAllNoEmpty(o: Open, ops: seq<QuestionOp>)
    requires NoEmpty(o.pending)
    requires forall i :: 0 <= i < |ops| ==> !(Usable(ops[i]) && ops[i].claims.value == [])
    ensures NoEmpty(ApplyAll(o, ops).pending)
  {
    if ops != [] {
      var m, op := ApplyAll(o, ops[..|ops| - 1]), ops[|ops| - 1];
      ApplyAllNoEmpty(o, ops[..|ops| - 1]);
      if Accepts(m, op) { PutNoEmpty(m.pending, op.id.value, op.claims.value); }
      if op.Answer? { PopNoEmpty(m.pending, op.answered); }
    }
  }

  lemma {:induction false} PutNoEmpty(p: Pending, id: string, claims: seq<Claim>)
    requires NoEmpty(p) && claims != []
    ensures NoEmpty(Put(p, id, claims))
  {
    if p != [] && p[0].id != id {
      assert forall i :: 0 <= i < |p[1..]| ==> p[1..][i] == p[i + 1];
      PutNoEmpty(p[1..], id, claims);
    }
  }

  lemma {:induction false} PopNoEmpty(p: Pending, id: string)
    requires NoEmpty(p)
    ensures NoEmpty(Pop(p, id))
  {
    if p != [] {
      assert forall i :: 0 <= i < |p[1..]| ==> p[1..][i] == p[i + 1];
      if p[0].id != id { PopNoEmpty(p[1..], id); }
    }
  }

  // ----- The continuation that exposes an unsafe cut -----

  /** Answers to every open call but `id`. */
  function Others(p: Pending, id: string): seq<ToolOutcome> {
    if p == [] then []
    else
      var last := p[|p| - 1].id;
      Others(p[..|p| - 1], id) + if last == id then [] else [ToolOutcome(Some(last), "", false)]
  }

  function AskCall(id: string): ToolCall {
    ToolCall(Some(ASK_TOOL), Some(id), "", NotAList, Questions(seq(1, i => QuestionItem("q"))))
  }

  lemma AskCallOp(id: string)
    requires id != ""
    ensures CallOp(AskCall(id)) == AskOne(id, AskUserQuestion)
  {
    ManyQuestions(1, AskUserQuestion, id);
  }

  /** Answer everything else, then ask once under a new id and once under the empty entry's id. */
  function Exposing(l: Loop, i: nat): seq<ClaudeEvent>
    requires i < |l.open.pending|
  {
    var id := l.open.pending[i].id;
    [User(None, Others(l.open.pending, id) + [ToolOutcome(None, "", false)], false, ""),
     Assistant("", [AskCall(id + "'"), AskCall(id)])]
  }

  lemma {:induction false} AnswerOthers(o: Open, p: Pending, id: string)
    requires Distinct(o.pending)
    ensures ApplyAll(o, OutcomeOps(Others(p, id))) == o.(pending := Without(o.pending, OtherIds(p, id)))
  {
    if p == [] {
      WithoutNone(o.pending);
    } else {
      var q, last := p[..|p| - 1], p[|p| - 1].id;
      AnswerOthers(o, q, id);
      if last != id {
        var outcomes := Others(q, id) + [ToolOutcome(Some(last), "", false)];
        assert outcomes[..|outcomes| - 1] == Others(q, id);
        ApplyAllConcat(o, OutcomeOps(Others(q, id)), [Answer(last)]);
        ApplyOne(ApplyAll(o, OutcomeOps(Others(q, id))), Answer(last));
        WithoutAdd(o.pending, OtherIds(q, id), last);
      } else {
        assert Others(p, id) == Others(q, id);
        assert OtherIds(p, id) == OtherIds(q, id);
      }
    }
  }

  lemma TwoCalls(c: ToolCall, d: ToolCall)
    requires c.name == Some(ASK_TOOL) && d.name == Some(ASK_TOOL)
    ensures CallOps([c, d]) == [CallOp(c), CallOp(d)]
  {
    assert [c, d][..1] == [c] && [c][..0] == [];
    assert CallOps([c]) == [CallOp(c)];
  }

  /** The open questions after the continuation, from any dictionary whose other keys it answers. */
  lemma ExposeOrder(o: Open, p: Pending, id: string)
    requires WellFormed(o.pending) && !o.unknown && id != ""
    requires Covered(o.pending, p, id) && Get(o.pending, id) == []
    ensures var answers, asks := Others(p, id) + [ToolOutcome(None, "", false)], [AskCall(id + "'"), AskCall(id)];
            var ops := OutcomeOps(answers) + CallOps(asks);
            ApplyAll(o, ops) == Apply(Apply(Open(if Has(o.pending, id) then [Entry(id, [])] else [], false),
                                            AskOne(id + "'", AskUserQuestion)), AskOne(id, AskUserQuestion))
  {
    var outcomes := Others(p, id) + [ToolOutcome(None, "", false)];
    assert outcomes[..|outcomes| - 1] == Others(p, id);
    assert OutcomeOps(outcomes) == OutcomeOps(Others(p, id));
    AnswerOthers(o, p, id);
    AnsweredOthers(o, p, id);
    var a, b := CallOp(AskCall(id + "'")), CallOp(AskCall(id));
    AskCallOp(id);
    AskCallOp(id + "'");
    TwoCalls(AskCall(id + "'"), AskCall(id));
    ApplyAllConcat(o, OutcomeOps(outcomes), [a, b]);
    assert [a, b][..1] == [a];
    ApplyOne(ApplyAll(o, OutcomeOps(outcomes)), a);
  }

  lemma FoldTwo(l: Loop, a: ClaudeEvent, b: ClaudeEvent)
    ensures Fold(l, [a, b]) == Step(Step(l, a), b)
  {
    assert [a, b][..1] == [a] && [a][..0] == [];
    assert Fold(l, [a]) == Step(l, a);
  }

  lemma NamedCallsKeepIntegrity(s: Snapshot, calls: seq<ToolCall>)
    requires forall i :: 0 <= i < |calls| ==> HasName(calls[i])
    ensures Note(s, Assistant("", calls)).integrity == s.integrity
  {
    hide SanitizeText, AppendRecent, FoldRecentResult;
    NoteCallsTrusted(s, calls);
    assert NoteSaid(s, "") == s;
  }

  lemma OutcomesKeepIntegrity(s: Snapshot, outcomes: seq<ToolOutcome>)
    requires outcomes != []
    ensures Note(s, User(None, outcomes, false, "")).integrity == s.integrity
  {
    hide SanitizeText, AppendRecent, FoldRecentResult;
    NoteOutcomesCore(s, s, outcomes);
  }

  lemma ExposeFold(l: Loop, outcomes: seq<ToolOutcome>, calls: seq<ToolCall>)
    requires outcomes != [] && forall i :: 0 <= i < |calls| ==> HasName(calls[i])
    ensures var end := Fold(l, [User(None, outcomes, false, ""), Assistant("", calls)]);
            end.snap.integrity == l.snap.integrity
              && end.open == ApplyAll(l.open, OutcomeOps(outcomes) + CallOps(calls))
  {
    hide SanitizeText, AppendRecent, FoldRecentResult;
    FoldTwo(l, User(None, outcomes, false, ""), Assistant("", calls));
    OutcomesKeepIntegrity(l.snap, outcomes);
    NamedCallsKeepIntegrity(Note(l.snap, User(None, outcomes, false, "")), calls);
    ApplyAllConcat(l.open, OutcomeOps(outcomes), CallOps(calls));
  }

  lemma ExposeCut(l: Loop, i: nat)
    requires SoundLoop(l) && i < |l.open.pending| && l.open.pending[i].claims == []
    requires l.snap.integrity != Unknown && !l.open.unknown
    ensures Finish(Fold(l, Exposing(l, i))) != Finish(Fold(Resumed(l), Exposing(l, i)))
  {
    hide SanitizeText, AppendRecent, FoldRecentResult;
    var p, id, r, ys := l.open.pending, l.open.pending[i].id, Resumed(l), Exposing(l, i);
    CutDrops(l.open, Finish(l), AskUserQuestion, i);
    ExposeOrder(l.open, p, id);
    ExposeOrder(r.open, p, id);
    TwoAsks(id, true, AskUserQuestion);
    TwoAsks(id, false, AskUserQuestion);
    ExposeFold(l, ys[0].outcomes, ys[1].calls);
    ExposeFold(r, ys[0].outcomes, ys[1].calls);
    OrdersDiffer(id, AskUserQuestion);
  }
}
