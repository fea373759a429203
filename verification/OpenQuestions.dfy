/** The loop state that both reducers carry beside the snapshot: the dictionary of open question
    calls and the flag saying that it can no longer be trusted. A batch cut rebuilds it from the
    snapshot's claims; the relations below say what that loses. */
module OpenQuestions {
  import opened Text
  import opened SummaryModel

  datatype Open = Open(pending: Pending, unknown: bool)

  /** What one record does to the open questions. */
  datatype QuestionOp =
    | Ask(id: Option<string>, claims: Option<seq<Claim>>)
    | Answer(answered: string)
    | Boundary

  predicate ValidOp(op: QuestionOp) {
    op.Ask? && op.id.Some? && op.claims.Some? ==>
      op.id.value != "" && forall j :: 0 <= j < |op.claims.value| ==> op.claims.value[j].id == op.id
  }

  predicate Usable(op: QuestionOp) {
    op.Ask? && op.id.Some? && op.claims.Some?
  }

  /** Whether an ask is taken up: it is well formed and stays within the collection limit. */
  predicate Accepts(o: Open, op: QuestionOp) {
    Usable(op) && |Flatten(o.pending)| + |op.claims.value| <= MAX_COLLECTION_ITEMS
  }

  function Apply(o: Open, op: QuestionOp): Open {
    match op
    case Ask(id, claims) =>
      if Accepts(o, op) then o.(pending := Put(o.pending, id.value, claims.value)) else o.(unknown := true)
    case Answer(id) => o.(pending := Pop(o.pending, id))
    case Boundary => Open([], false)
  }

  function ApplyAll(o: Open, ops: seq<QuestionOp>): Open {
    if ops == [] then o else Apply(ApplyAll(o, ops[..|ops| - 1]), ops[|ops| - 1])
  }

  /** The state a batch starts with: what the snapshot of the previous batch still shows. */
  function Rebuilt(s: Snapshot): Open {
    Open(PendingQuestions(s), s.questions.provenance == Unknown)
  }

  /** The `questions` field a batch ends with. */
  function Shown(o: Open, kind: Kind): Collection<Claim> {
    if o.unknown then UnknownCollection(QuestionsUnsupported(kind))
    else Collection(Flatten(o.pending), Exact, Some(kind), None)
  }

  lemma {:induction false} ApplyAllConcat(o: Open, a: seq<QuestionOp>, b: seq<QuestionOp>)
    ensures ApplyAll(o, a + b) == ApplyAll(ApplyAll(o, a), b)
  {
    if b == [] {
      assert a + b == a;
    } else {
      assert (a + b)[..|a + b| - 1] == a + b[..|b| - 1];
      ApplyAllConcat(o, a, b[..|b| - 1]);
    }
  }

  // ----- The invariant of the loop state -----

  predicate Bounded(o: Open) {
    WellFormed(o.pending) && |Flatten(o.pending)| <= MAX_COLLECTION_ITEMS
  }

  lemma ApplyBounded(o: Open, op: QuestionOp)
    requires Bounded(o) && ValidOp(op)
    ensures Bounded(Apply(o, op))
  {
    match op
    case Ask(id, claims) =>
      if Accepts(o, op) {
        PutWellFormed(o.pending, id.value, claims.value);
        FlattenPutLength(o.pending, id.value, claims.value);
      }
    case Answer(id) =>
      PopWellFormed(o.pending, id);
      FlattenPop(o.pending, id);
    case Boundary =>
  }

  lemma {:induction false} ApplyAllBounded(o: Open, ops: seq<QuestionOp>)
    requires Bounded(o) && forall i :: 0 <= i < |ops| ==> ValidOp(ops[i])
    ensures Bounded(ApplyAll(o, ops))
  {
    if ops != [] {
      ApplyAllBounded(o, ops[..|ops| - 1]);
      ApplyBounded(ApplyAll(o, ops[..|ops| - 1]), ops[|ops| - 1]);
    }
  }

  // ----- Two loop states with the same content, perhaps in another order -----

  ghost predicate SameContent(o: Open, o': Open) {
    && o.unknown == o'.unknown
    && WellFormed(o.pending) && WellFormed(o'.pending)
    && multiset(Flatten(o.pending)) == multiset(Flatten(o'.pending))
    && forall id :: Get(o.pending, id) == Get(o'.pending, id)
  }

  /** The two also list their claims in the same order, `o` holding extra empty entries under `ids`. */
  ghost predicate SameOrder(o: Open, o': Open, ids: set<string>) {
    && SameContent(o, o')
    && (!o.unknown ==> Hollow(o.pending, ids) && o'.pending == Without(o.pending, ids))
  }

  /** Every entry filed under one of `ids` is empty. */
  predicate Hollow(p: Pending, ids: set<string>) {
    forall i :: 0 <= i < |p| && p[i].id in ids ==> p[i].claims == []
  }

  lemma SameCount(o: Open, o': Open, op: QuestionOp)
    requires SameContent(o, o')
    ensures |Flatten(o.pending)| == |Flatten(o'.pending)|
    ensures Accepts(o, op) == Accepts(o', op)
  {
    assert |multiset(Flatten(o.pending))| == |Flatten(o.pending)|;
    assert |multiset(Flatten(o'.pending))| == |Flatten(o'.pending)|;
  }

  lemma PutSameContent(o: Open, o': Open, id: string, claims: seq<Claim>)
    requires SameContent(o, o')
    requires forall j :: 0 <= j < |claims| ==> claims[j].id == Some(id)
    requires claims == [] ==> id != ""
    ensures SameContent(o.(pending := Put(o.pending, id, claims)), o'.(pending := Put(o'.pending, id, claims)))
  {
    var p, p' := o.pending, o'.pending;
    PutWellFormed(p, id, claims);
    PutWellFormed(p', id, claims);
    FlattenPut(p, id, claims);
    FlattenPut(p', id, claims);
    forall k ensures Get(Put(p, id, claims), k) == Get(Put(p', id, claims), k) {
      GetPut(p, id, claims, k);
      GetPut(p', id, claims, k);
    }
  }

  lemma PopSameContent(o: Open, o': Open, id: string)
    requires SameContent(o, o')
    ensures SameContent(o.(pending := Pop(o.pending, id)), o'.(pending := Pop(o'.pending, id)))
  {
    var p, p' := o.pending, o'.pending;
    PopWellFormed(p, id);
    PopWellFormed(p', id);
    FlattenPop(p, id);
    FlattenPop(p', id);
    forall k ensures Get(Pop(p, id), k) == Get(Pop(p', id), k) {
      GetPop(p, id, k);
      GetPop(p', id, k);
    }
  }

  lemma ApplySameContent(o: Open, o': Open, op: QuestionOp)
    requires SameContent(o, o') && ValidOp(op)
    ensures SameContent(Apply(o, op), Apply(o', op))
  {
    SameCount(o, o', op);
    match op
    case Ask(id, claims) => if Accepts(o, op) { PutSameContent(o, o', id.value, claims.value); }
    case Answer(id) => PopSameContent(o, o', id);
    case Boundary =>
  }

  /** The hypothesis under which order is kept: no id in `ids` is asked about again. */
  predicate Avoids(op: QuestionOp, ids: set<string>) {
    Usable(op) ==> op.id.value !in ids
  }

  lemma ApplySameOrder(o: Open, o': Open, op: QuestionOp, ids: set<string>)
    requires SameOrder(o, o', ids) && ValidOp(op) && Avoids(op, ids)
    ensures SameOrder(Apply(o, op), Apply(o', op), ids)
  {
    ApplySameContent(o, o', op);
    SameCount(o, o', op);
    if !o.unknown {
      match op
      case Ask(id, claims) =>
        if Accepts(o, op) {
          WithoutPut(o.pending, ids, id.value, claims.value);
          HollowPut(o.pending, ids, id.value, claims.value);
        }
      case Answer(id) =>
        WithoutPop(o.pending, ids, id);
        HollowPop(o.pending, ids, id);
      case Boundary =>
    }
  }

  lemma {:induction false} HollowPut(p: Pending, ids: set<string>, id: string, claims: seq<Claim>)
    requires Hollow(p, ids) && id !in ids
    ensures Hollow(Put(p, id, claims), ids)
  {
    if p != [] && p[0].id != id {
      assert forall i :: 0 <= i < |p[1..]| ==> p[1..][i] == p[i + 1];
      HollowPut(p[1..], ids, id, claims);
    }
  }

  lemma {:induction false} HollowPop(p: Pending, ids: set<string>, id: string)
    requires Hollow(p, ids)
    ensures Hollow(Pop(p, id), ids)
  {
    if p != [] {
      assert forall i :: 0 <= i < |p[1..]| ==> p[1..][i] == p[i + 1];
      if p[0].id != id { HollowPop(p[1..], ids, id); }
    }
  }

  // ----- What a cut loses -----

  /** A cut keeps the open questions exactly, or loses only entries whose reuse would show. */
  lemma CutKeepsOrder(o: Open, s: Snapshot, kind: Kind)
    requires WellFormed(o.pending) && !o.unknown && s.questions == Shown(o, kind)
    ensures SameOrder(o, Rebuilt(s), EmptyIds(o.pending))
    ensures WellFormed(Rebuilt(s).pending)
  {
    var p := o.pending;
    RegroupFlatten(p);
    EmptyIdsHas(p);
    forall i | 0 <= i < |p| && p[i].id in EmptyIds(p) ensures p[i].claims == [] {
      var j :| 0 <= j < |p| && p[j].id == p[i].id && p[j].claims == [];
      assert i == j;
    }
    FlattenWithout(p, EmptyIds(p));
    forall k ensures Get(Without(p, EmptyIds(p)), k) == Get(p, k) {
      GetWithout(p, EmptyIds(p), k);
    }
    WithoutWellFormed(p, EmptyIds(p));
  }

  lemma {:induction false} GetWithout(p: Pending, ids: set<string>, k: string)
    requires Hollow(p, ids) && Distinct(p)
    ensures Get(Without(p, ids), k) == Get(p, k)
  {
    if p != [] {
      assert forall i :: 0 <= i < |p[1..]| ==> p[1..][i] == p[i + 1];
      GetWithout(p[1..], ids, k);
      if p[0].id in ids && p[0].id == k {
        assert !Has(p[1..], k);
        GetAbsent(p[1..], k);
      }
    }
  }

  lemma {:induction false} WithoutWellFormed(p: Pending, ids: set<string>)
    requires WellFormed(p)
    ensures WellFormed(Without(p, ids))
  {
    if p != [] {
      WithoutWellFormed(p[1..], ids);
      var q := Without(p[1..], ids);
      if p[0].id !in ids {
        forall i | 0 <= i < |q| ensures q[i].id != p[0].id {
          if q[i].id == p[0].id {
            assert Has(q, p[0].id);
            WithoutHas(p[1..], ids, p[0].id);
          }
        }
      }
    }
  }

  /** Nothing is lost when the flag is already up and no claim is open. */
  lemma EmptyCutKeepsContent(o: Open)
    requires WellFormed(o.pending) && o.unknown && Flatten(o.pending) == []
    ensures SameOrder(o, Open([], true), {})
  {
    forall id ensures Get(o.pending, id) == [] {
      GetOfNothing(o.pending, id);
    }
  }

  lemma {:induction false} GetOfNothing(p: Pending, id: string)
    requires Flatten(p) == []
    ensures Get(p, id) == []
  {
    if p != [] { GetOfNothing(p[1..], id); }
  }

  lemma NoEmptyIds(p: Pending)
    ensures NoEmpty(p) <==> EmptyIds(p) == {}
  {
    EmptyIdsHas(p);
    if EmptyIds(p) != {} {
      var id :| id in EmptyIds(p);
    }
  }

  /** Grouping any snapshot's claims gives a well-formed dictionary. */
  lemma {:induction false} GroupWellFormed(p: Pending, claims: seq<Claim>)
    requires WellFormed(p) && |Flatten(p)| + |claims| <= MAX_COLLECTION_ITEMS
    ensures Bounded(Open(GroupFrom(p, claims), false))
    decreases |claims|
  {
    if claims != [] {
      if claims[0].id.Some? {
        var id := claims[0].id.value;
        var more := Get(p, id) + [claims[0]];
        GetTagged(p, id);
        PutWellFormed(p, id, more);
        FlattenPutLength(p, id, more);
        GroupWellFormed(Put(p, id, more), claims[1..]);
      } else {
        GroupWellFormed(p, claims[1..]);
      }
    }
  }

  lemma {:induction false} GetTagged(p: Pending, id: string)
    requires WellFormed(p)
    ensures forall j :: 0 <= j < |Get(p, id)| ==> Get(p, id)[j].id == Some(id)
  {
    if p != [] && p[0].id != id { GetTagged(p[1..], id); }
  }

  lemma {:induction false} ApplyAllSameContent(o: Open, o': Open, ops: seq<QuestionOp>)
    requires SameContent(o, o') && forall i :: 0 <= i < |ops| ==> ValidOp(ops[i])
    ensures SameContent(ApplyAll(o, ops), ApplyAll(o', ops))
  {
    if ops != [] {
      ApplyAllSameContent(o, o', ops[..|ops| - 1]);
      ApplySameContent(ApplyAll(o, ops[..|ops| - 1]), ApplyAll(o', ops[..|ops| - 1]), ops[|ops| - 1]);
    }
  }

  lemma {:induction false} ApplyAllSameOrder(o: Open, o': Open, ops: seq<QuestionOp>, ids: set<string>)
    requires SameOrder(o, o', ids)
    requires forall i :: 0 <= i < |ops| ==> ValidOp(ops[i]) && Avoids(ops[i], ids)
    ensures SameOrder(ApplyAll(o, ops), ApplyAll(o', ops), ids)
  {
    if ops != [] {
      ApplyAllSameOrder(o, o', ops[..|ops| - 1], ids);
      ApplySameOrder(ApplyAll(o, ops[..|ops| - 1]), ApplyAll(o', ops[..|ops| - 1]), ops[|ops| - 1], ids);
    }
  }

  /** Until a boundary the flag never comes down. */
  lemma {:induction false} UnknownStays(o: Open, ops: seq<QuestionOp>)
    requires o.unknown && Boundary !in ops
    ensures ApplyAll(o, ops).unknown
  {
    if ops != [] {
      assert ops[|ops| - 1] in ops;
      UnknownStays(o, ops[..|ops| - 1]);
    }
  }

  /** What is shown depends on the order of the entries only, once the contents agree. */
  lemma ShownSame(o: Open, o': Open, kind: Kind, ids: set<string>)
    requires SameOrder(o, o', ids)
    ensures Shown(o, kind) == Shown(o', kind)
  {
    if !o.unknown { FlattenWithout(o.pending, ids); }
  }
}
