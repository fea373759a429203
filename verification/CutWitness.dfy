/** Shared parts of the continuations that expose an unsafe batch cut: answer every open call but
    one, then ask one question under a new id and one under the id of the recorded empty call. */
module CutWitness {
  import opened Text
  import opened SummaryModel
  import opened OpenQuestions

  function OtherIds(p: Pending, id: string): set<string> {
    if p == [] then {}
    else OtherIds(p[..|p| - 1], id) + if p[|p| - 1].id == id then {} else {p[|p| - 1].id}
  }

  /** One usable question asked under `id`. */
  function One(id: string, kind: Kind): seq<Claim> {
    [Claim(Some("q"), Exact, Some(kind), Some(id), None)]
  }

  function AskOne(id: string, kind: Kind): QuestionOp {
    Ask(Some(id), Some(One(id, kind)))
  }

  lemma QuestionIsClean()
    ensures SanitizeText("q") == "q"
  {
    assert StripAnsi("q") == "q" by { assert StripAnsi("q"[1..]) == ""; }
    assert DropControls("q") == "q" by { assert DropControls("q"[1..]) == ""; }
    assert LStrip("q") == "q";
    assert WordLength("q") == 1 by { assert WordLength("q"[1..]) == 0; }
    assert Words("q") == ["q"] by { assert "q"[..1] == "q" && Words("q"[1..]) == []; }
  }

  /** `n` usable questions give `n` claims. */
  lemma {:induction false} ManyQuestions(n: nat, kind: Kind, id: string)
    ensures ClaimsOf(seq(n, i => QuestionItem("q")), kind, id).Some?
    ensures n == 1 ==> ClaimsOf(seq(n, i => QuestionItem("q")), kind, id) == Some(One(id, kind))
  {
    QuestionIsClean();
    hide SanitizeText;
    if n > 0 {
      var items := seq(n, i => QuestionItem("q"));
      assert items[1..] == seq(n - 1, i => QuestionItem("q"));
      ManyQuestions(n - 1, kind, id);
      assert ExactClaim("q", kind, Some(id)) == One(id, kind)[0];
      if n == 1 {
        assert items[1..] == [];
        assert [One(id, kind)[0]] + [] == One(id, kind);
      }
    }
  }

  lemma {:induction false} WithoutNone(p: Pending)
    ensures Without(p, {}) == p
  {
    if p != [] { WithoutNone(p[1..]); }
  }

  lemma {:induction false} WithoutAdd(p: Pending, ids: set<string>, id: string)
    requires Distinct(p)
    ensures Without(p, ids + {id}) == Pop(Without(p, ids), id)
  {
    if p != [] {
      WithoutAdd(p[1..], ids, id);
      if p[0].id == id {
        assert !Has(p[1..], id);
        WithoutHas(p[1..], ids, id);
        GetAbsent(Without(p[1..], ids), id);
      }
    }
  }

  lemma {:induction false} OtherIdsAre(p: Pending, id: string)
    ensures forall i :: 0 <= i < |p| && p[i].id != id ==> p[i].id in OtherIds(p, id)
    ensures id !in OtherIds(p, id)
  {
    if p != [] { OtherIdsAre(p[..|p| - 1], id); }
  }

  lemma {:induction false} WithoutAllBut(p: Pending, ids: set<string>, id: string)
    requires Distinct(p) && id !in ids
    requires forall i :: 0 <= i < |p| && p[i].id != id ==> p[i].id in ids
    ensures Without(p, ids) == if Has(p, id) then [Entry(id, Get(p, id))] else []
  {
    if p != [] {
      assert forall i :: 0 <= i < |p[1..]| ==> p[1..][i] == p[i + 1];
      WithoutAllBut(p[1..], ids, id);
      HasCons(p, id);
      if p[0].id == id { assert !Has(p[1..], id); }
    }
  }

  lemma {:induction false} GetAt(p: Pending, i: nat)
    requires Distinct(p) && i < |p|
    ensures Has(p, p[i].id) && Get(p, p[i].id) == p[i].claims
  {
    if i > 0 {
      assert p[1..][i - 1] == p[i];
      GetAt(p[1..], i - 1);
    }
  }

  lemma FlattenTwo(a: Entry, b: Entry)
    ensures Flatten([a, b]) == a.claims + b.claims
    ensures Flatten([a]) == a.claims
  {
    assert [a, b][1..] == [b] && [b][1..] == [] && [a][1..] == [];
    assert Flatten([b]) == b.claims;
  }

  /** Two asks, the second under `id`: whether `id` was still on record decides the order. */
  lemma TwoAsks(id: string, recorded: bool, kind: Kind)
    requires id != ""
    ensures Apply(Apply(Open(if recorded then [Entry(id, [])] else [], false), AskOne(id + "'", kind)),
                  AskOne(id, kind)) ==
            Open(if recorded then [Entry(id, One(id, kind)), Entry(id + "'", One(id + "'", kind))]
                 else [Entry(id + "'", One(id + "'", kind)), Entry(id, One(id, kind))], false)
  {
    var id' := id + "'";
    var q := Open(if recorded then [Entry(id, [])] else [], false);
    var a := AskOne(id', kind);
    assert |id'| != |id|;
    if recorded {
      FlattenTwo(Entry(id, []), Entry(id', One(id', kind)));
      assert q.pending[1..] == [];
      assert Put(q.pending, id', One(id', kind)) == [Entry(id, [])] + [Entry(id', One(id', kind))];
      var r := [Entry(id, []), Entry(id', One(id', kind))];
      assert Apply(q, a) == Open(r, false);
      assert Put(r, id, One(id, kind)) == [Entry(id, One(id, kind))] + r[1..];
    } else {
      var r := [Entry(id', One(id', kind))];
      FlattenTwo(r[0], r[0]);
      assert Apply(q, a) == Open(r, false);
      assert r[1..] == [];
      assert Put(r, id, One(id, kind)) == [r[0]] + [Entry(id, One(id, kind))];
    }
  }

  /** The first question shown tells the two orders apart. */
  lemma OrdersDiffer(id: string, kind: Kind)
    ensures Shown(Open([Entry(id, One(id, kind)), Entry(id + "'", One(id + "'", kind))], false), kind) !=
            Shown(Open([Entry(id + "'", One(id + "'", kind)), Entry(id, One(id, kind))], false), kind)
  {
    FlattenTwo(Entry(id, One(id, kind)), Entry(id + "'", One(id + "'", kind)));
    FlattenTwo(Entry(id + "'", One(id + "'", kind)), Entry(id, One(id, kind)));
    assert |id + "'"| != |id|;
    var a := Shown(Open([Entry(id, One(id, kind)), Entry(id + "'", One(id + "'", kind))], false), kind);
    var b := Shown(Open([Entry(id + "'", One(id + "'", kind)), Entry(id, One(id, kind))], false), kind);
    assert a.items[0].id == Some(id) && b.items[0].id == Some(id + "'");
  }

  /** After a cut the recorded empty call is gone and every other key survives. */
  lemma CutDrops(o: Open, s: Snapshot, kind: Kind, i: nat)
    requires WellFormed(o.pending) && !o.unknown && s.questions == Shown(o, kind)
    requires i < |o.pending| && o.pending[i].claims == []
    ensures var id, r := o.pending[i].id, Rebuilt(s);
            && Has(o.pending, id) && Get(o.pending, id) == []
            && WellFormed(r.pending) && !r.unknown && !Has(r.pending, id) && Get(r.pending, id) == []
            && Covered(o.pending, o.pending, id) && Covered(r.pending, o.pending, id)
  {
    var p, id, r := o.pending, o.pending[i].id, Rebuilt(s);
    CutKeepsOrder(o, s, kind);
    GetAt(p, i);
    OtherIdsAre(p, id);
    EmptyIdsHas(p);
    WithoutHas(p, EmptyIds(p), id);
    GetAbsent(r.pending, id);
    forall j | 0 <= j < |r.pending| && r.pending[j].id != id ensures r.pending[j].id in OtherIds(p, id) {
      assert Has(r.pending, r.pending[j].id);
      WithoutHas(p, EmptyIds(p), r.pending[j].id);
    }
  }

  /** Every key of `q` other than `id` is one of the other keys of `p`. */
  predicate Covered(q: Pending, p: Pending, id: string) {
    forall i :: 0 <= i < |q| && q[i].id != id ==> q[i].id in OtherIds(p, id)
  }

  /** Answering the other keys leaves at most the entry of `id`. */
  lemma AnsweredOthers(o: Open, p: Pending, id: string)
    requires WellFormed(o.pending) && Covered(o.pending, p, id) && Get(o.pending, id) == []
    ensures Without(o.pending, OtherIds(p, id)) == if Has(o.pending, id) then [Entry(id, [])] else []
  {
    OtherIdsAre(p, id);
    WithoutAllBut(o.pending, OtherIds(p, id), id);
  }
}
