/** Which question calls are open, read off the asks, answers and turn boundaries themselves: a call
    is taken up while the open ones leave room for it, and stays open until it is answered, asked
    again or the turn ends. The dictionary both reducers keep holds exactly the open calls, in the
    order in which they opened. */
module QuestionMeaning {
  import opened Text
  import opened SummaryModel
  import opened OpenQuestions

  type Ops = seq<QuestionOp>

  // ----- Which calls are open -----

  predicate WellFormedAsk(op: QuestionOp) {
    op.Ask? && op.id.Some? && op.claims.Some?
  }

  /** The ask at `i` is well formed and its questions fit beside those open by then. */
  ghost predicate TakenUp(ops: Ops, i: nat): (taken: bool)
    ensures taken ==> i < |ops| && WellFormedAsk(ops[i])
    decreases i, 3
  {
    && i < |ops| && WellFormedAsk(ops[i])
    && OpenCount(ops, i, i) + |ops[i].claims.value| <= 32
  }

  /** How many questions the calls before `j` that are open at `n` ask. */
  ghost function OpenCount(ops: Ops, j: nat, n: nat): nat
    requires j <= n <= |ops|
    decreases n, 2, j
  {
    if j == 0 then 0
    else OpenCount(ops, j - 1, n) + if IsOpen(ops, j - 1, n) then |ops[j - 1].claims.value| else 0
  }

  /** The call asked at `j` is taken up and nothing before `n` closes it. */
  ghost predicate IsOpen(ops: Ops, j: nat, n: nat): (open: bool)
    requires n <= |ops|
    ensures open ==> j < |ops| && WellFormedAsk(ops[j])
    decreases n, 1
  {
    j < n && TakenUp(ops, j) && forall k: nat :: j < k < n ==> !Closes(ops, k, ops[j].id.value)
  }

  /** An answer, the end of the turn, or the same call asked again. */
  ghost predicate Closes(ops: Ops, k: nat, id: string)
    requires k < |ops|
    decreases k, 4
  {
    ops[k] == Boundary || ops[k] == Answer(id) || (TakenUp(ops, k) && ops[k].id.value == id)
  }

  ghost predicate OpenUnder(ops: Ops, id: string, j: nat, n: nat)
    requires n <= |ops|
  {
    IsOpen(ops, j, n) && ops[j].id.value == id
  }

  /** `id` opened at `k` and has been open since. */
  ghost predicate Opened(ops: Ops, id: string, k: nat, n: nat)
    requires n <= |ops|
  {
    && k < n && TakenUp(ops, k) && ops[k].id.value == id
    && (forall j: nat :: j < k ==> !OpenUnder(ops, id, j, k))
    && (forall m: nat :: k < m < n ==> ops[m] != Boundary && ops[m] != Answer(id))
  }

  /** An ask that was not taken up, with no end of the turn since. */
  ghost predicate Refused(ops: Ops, k: nat, n: nat)
    requires n <= |ops|
  {
    k < n && ops[k].Ask? && !TakenUp(ops, k) && forall m: nat :: k < m < n ==> ops[m] != Boundary
  }

  /** Earlier entries opened earlier. */
  ghost predicate Ordered(ops: Ops, n: nat, p: Pending)
    requires n <= |ops|
  {
    forall a: nat, b: nat, k: nat, l: nat ::
      a < b < |p| && Opened(ops, p[a].id, k, n) && Opened(ops, p[b].id, l, n) ==> k < l
  }

  /** The keys are the ids of the open calls. */
  ghost predicate Keyed(ops: Ops, n: nat, p: Pending)
    requires n <= |ops|
  {
    Distinct(p) && forall id :: Has(p, id) <==> AnyOpen(ops, id, n)
  }

  ghost predicate AnyOpen(ops: Ops, id: string, n: nat)
    requires n <= |ops|
  {
    exists j: nat :: OpenUnder(ops, id, j, n)
  }

  /** Each key holds the questions of its open call. */
  ghost predicate Filled(ops: Ops, n: nat, p: Pending)
    requires n <= |ops|
  {
    forall id, j: nat :: OpenUnder(ops, id, j, n) ==> Get(p, id) == ops[j].claims.value
  }

  /** The dictionary of open calls, entry for entry. */
  ghost predicate Lists(ops: Ops, n: nat, p: Pending)
    requires n <= |ops|
  {
    Keyed(ops, n, p) && Filled(ops, n, p) && Ordered(ops, n, p)
  }

  /** What the loop state says after the first `n` operations. */
  ghost predicate Holds(ops: Ops, n: nat, o: Open)
    requires n <= |ops|
  {
    && Lists(ops, n, o.pending)
    && |Flatten(o.pending)| == OpenCount(ops, n, n)
    && (o.unknown <==> AnyRefused(ops, n))
  }

  // ----- One operation -----

  lemma OpenOnce(ops: Ops, id: string, i: nat, j: nat, n: nat)
    requires n <= |ops| && OpenUnder(ops, id, i, n) && OpenUnder(ops, id, j, n)
    ensures i == j
  {
    assert i < j ==> Closes(ops, j, id);
    assert j < i ==> Closes(ops, i, id);
  }

  lemma OpenNext(ops: Ops, id: string, j: nat, n: nat)
    requires n < |ops|
    ensures OpenUnder(ops, id, j, n + 1) <==>
            (OpenUnder(ops, id, j, n) && !Closes(ops, n, id)) || (j == n && TakenUp(ops, n) && ops[n].id.value == id)
  {
  }

  lemma OpenedNext(ops: Ops, id: string, k: nat, n: nat)
    requires n < |ops|
    ensures Opened(ops, id, k, n + 1) <==>
            || (Opened(ops, id, k, n) && ops[n] != Boundary && ops[n] != Answer(id))
            || (k == n && TakenUp(ops, n) && ops[n].id.value == id && forall j: nat :: j < n ==>
                  !OpenUnder(ops, id, j, n))
  {
  }

  ghost predicate AnyRefused(ops: Ops, n: nat)
    requires n <= |ops|
  {
    exists k: nat :: Refused(ops, k, n)
  }

  lemma RefusedNext(ops: Ops, n: nat)
    requires n < |ops|
    ensures AnyRefused(ops, n + 1) <==>
            ops[n] != Boundary && ((ops[n].Ask? && !TakenUp(ops, n)) || AnyRefused(ops, n))
  {
    if AnyRefused(ops, n + 1) { RefusedBefore(ops, n, n + 1); }
    if ops[n] != Boundary && AnyRefused(ops, n) {
      var k: nat :| Refused(ops, k, n);
      assert Refused(ops, k, n + 1);
    }
    if ops[n].Ask? && !TakenUp(ops, n) { assert Refused(ops, n, n + 1); }
  }

  lemma RefusedBefore(ops: Ops, n: nat, m: nat)
    requires m == n + 1 <= |ops| && AnyRefused(ops, m)
    ensures ops[n] != Boundary && ((ops[n].Ask? && !TakenUp(ops, n)) || AnyRefused(ops, n))
  {
    var k: nat :| Refused(ops, k, m);
    if k < n { assert Refused(ops, k, n); }
  }

  /** How many questions the call open under `id` among those before `j` asks. */
  ghost function CountUnder(ops: Ops, id: string, j: nat, n: nat): nat
    requires j <= n <= |ops|
  {
    if exists i: nat :: i < j && OpenUnder(ops, id, i, n) then
      var i: nat :| i < j && OpenUnder(ops, id, i, n);
      |ops[i].claims.value|
    else 0
  }

  lemma CountUnderIs(ops: Ops, id: string, i: nat, j: nat, n: nat)
    requires i < j <= n <= |ops| && OpenUnder(ops, id, i, n)
    ensures CountUnder(ops, id, j, n) == |ops[i].claims.value|
  {
    var k: nat :| k < j && OpenUnder(ops, id, k, n) && CountUnder(ops, id, j, n) == |ops[k].claims.value|;
    OpenOnce(ops, id, i, k, n);
  }

  /** Closing one call takes its questions off the count. */
  lemma {:induction false} CountClosing(ops: Ops, id: string, j: nat, n: nat)
    requires j <= n < |ops| && ops[n] != Boundary
    requires forall x :: Closes(ops, n, x) <==> x == id
    ensures OpenCount(ops, j, n + 1) + CountUnder(ops, id, j, n) == OpenCount(ops, j, n)
  {
    if j > 0 {
      CountClosing(ops, id, j - 1, n);
      if IsOpen(ops, j - 1, n) {
        var x := ops[j - 1].id.value;
        OpenNext(ops, x, j - 1, n);
        if x == id {
          CountUnderIs(ops, id, j - 1, j, n);
          forall i: nat | i < j - 1 ensures !OpenUnder(ops, id, i, n) {
            if OpenUnder(ops, id, i, n) { OpenOnce(ops, id, i, j - 1, n); }
          }
        } else {
          CountUnderSkips(ops, id, j - 1, n);
        }
      } else {
        CountUnderSkips(ops, id, j - 1, n);
      }
    }
  }

  lemma CountUnderSkips(ops: Ops, id: string, j: nat, n: nat)
    requires j < n <= |ops| && !OpenUnder(ops, id, j, n)
    ensures CountUnder(ops, id, j + 1, n) == CountUnder(ops, id, j, n)
  {
    if i: nat :| i < j + 1 && OpenUnder(ops, id, i, n) {
      CountUnderIs(ops, id, i, j, n);
      CountUnderIs(ops, id, i, j + 1, n);
    }
  }

  lemma {:induction false} CountKept(ops: Ops, j: nat, n: nat)
    requires j <= n < |ops| && forall x :: !Closes(ops, n, x)
    ensures OpenCount(ops, j, n + 1) == OpenCount(ops, j, n)
  {
    if j > 0 {
      CountKept(ops, j - 1, n);
      if TakenUp(ops, j - 1) { OpenNext(ops, ops[j - 1].id.value, j - 1, n); }
    }
  }

  lemma {:induction false} CountCleared(ops: Ops, j: nat, n: nat)
    requires j <= n + 1 && n < |ops| && ops[n] == Boundary
    ensures OpenCount(ops, j, n + 1) == 0
  {
    if j > 0 {
      CountCleared(ops, j - 1, n);
      if IsOpen(ops, j - 1, n + 1) && j - 1 < n { assert Closes(ops, n, ops[j - 1].id.value); }
    }
  }

  /** Under the invariant the count of one call is the length of its entry. */
  lemma CountIsEntry(ops: Ops, n: nat, o: Open, id: string)
    requires n <= |ops| && Lists(ops, n, o.pending)
    ensures CountUnder(ops, id, n, n) == |Get(o.pending, id)|
  {
    if j: nat :| OpenUnder(ops, id, j, n) {
      CountUnderIs(ops, id, j, n, n);
    } else {
      GetAbsent(o.pending, id);
    }
  }

  // ----- Entries in the order in which they opened -----

  predicate SameKeys(p: Pending, q: Pending) {
    |p| == |q| && forall i :: 0 <= i < |p| ==> p[i].id == q[i].id
  }

  lemma {:induction false} PutKeys(p: Pending, id: string, claims: seq<Claim>)
    ensures Has(p, id) ==> SameKeys(Put(p, id, claims), p)
    ensures !Has(p, id) ==> Put(p, id, claims) == p + [Entry(id, claims)]
  {
    if !Has(p, id) {
      PutLast(p, id, [], claims);
    } else if p != [] {
      HasCons(p, id);
      if p[0].id != id { PutKeys(p[1..], id, claims); }
    }
  }

  lemma {:induction false} PopKeys(p: Pending, id: string) returns (at: nat)
    ensures at <= |p| && |Pop(p, id)| == if at < |p| then |p| - 1 else |p|
    ensures forall i :: 0 <= i < |Pop(p, id)| ==> Pop(p, id)[i] == p[if i < at then i else i + 1]
  {
    if p == [] || p[0].id == id {
      at := 0;
    } else {
      var k := PopKeys(p[1..], id);
      at := k + 1;
      var q := Pop(p[1..], id);
      assert Pop(p, id) == [p[0]] + q;
      forall i | 0 <= i < |Pop(p, id)| ensures Pop(p, id)[i] == p[if i < at then i else i + 1] {
        if i > 0 { assert q[i - 1] == p[1..][if i - 1 < k then i - 1 else i]; }
      }
    }
  }

  /** An id that opened and was not closed for good is open. */
  lemma {:induction false} OpenedIsOpen(ops: Ops, id: string, k: nat, n: nat)
    requires n <= |ops| && Opened(ops, id, k, n)
    ensures AnyOpen(ops, id, n)
    decreases n
  {
    if n == k + 1 {
      assert OpenUnder(ops, id, k, n);
    } else {
      OpenedNext(ops, id, k, n - 1);
      OpenedIsOpen(ops, id, k, n - 1);
      var j: nat :| OpenUnder(ops, id, j, n - 1);
      OpenNext(ops, id, j, n - 1);
      OpenNext(ops, id, n - 1, n - 1);
      assert OpenUnder(ops, id, j, n) || OpenUnder(ops, id, n - 1, n);
    }
  }

  /** An open id opened at some point. */
  lemma {:induction false} OpenHasOpened(ops: Ops, id: string, n: nat) returns (k: nat)
    requires n <= |ops| && AnyOpen(ops, id, n)
    ensures Opened(ops, id, k, n)
    decreases n
  {
    var j: nat :| OpenUnder(ops, id, j, n);
    OpenNext(ops, id, j, n - 1);
    if AnyOpen(ops, id, n - 1) {
      k := OpenHasOpened(ops, id, n - 1);
      if j < n - 1 {
        assert !Closes(ops, n - 1, id);
      }
      OpenedNext(ops, id, k, n - 1);
    } else {
      k := n - 1;
      assert j == n - 1;
      OpenedNext(ops, id, k, n - 1);
    }
  }

  lemma ListsCleared(ops: Ops, n: nat, m: nat)
    requires n < |ops| && ops[n] == Boundary && m == n + 1
    ensures Lists(ops, m, [])
  {
    forall id, j: nat ensures !OpenUnder(ops, id, j, m) { OpenNext(ops, id, j, n); }
  }

  lemma ListsKept(ops: Ops, n: nat, m: nat, p: Pending)
    requires n < |ops| && m == n + 1 && Lists(ops, n, p) && ops[n].Ask? && !TakenUp(ops, n)
    ensures Lists(ops, m, p)
  {
    forall id ensures AnyOpen(ops, id, m) <==> AnyOpen(ops, id, n) { AnyOpenNext(ops, id, n); }
    forall id, j: nat | OpenUnder(ops, id, j, m) ensures Get(p, id) == ops[j].claims.value { OpenNext(ops, id, j, n); }
    forall a: nat, b: nat, k: nat, l: nat | a < b < |p| && Opened(ops, p[a].id, k, m) && Opened(ops, p[b].id, l, m)
      ensures k < l
    {
      OpenedNext(ops, p[a].id, k, n);
      OpenedNext(ops, p[b].id, l, n);
    }
  }

  lemma AnyOpenNext(ops: Ops, id: string, n: nat)
    requires n < |ops|
    ensures AnyOpen(ops, id, n + 1) <==>
            (AnyOpen(ops, id, n) && !Closes(ops, n, id)) || (TakenUp(ops, n) && ops[n].id.value == id)
  {
    var m := n + 1;
    if j: nat :| OpenUnder(ops, id, j, m) { OpenNext(ops, id, j, n); }
    if j: nat :| OpenUnder(ops, id, j, n) { OpenNext(ops, id, j, n); }
    OpenNext(ops, id, n, n);
  }

  lemma OrderedAnswered(ops: Ops, n: nat, m: nat, p: Pending, id: string)
    requires n < |ops| && m == n + 1 && Ordered(ops, n, p) && ops[n] == Answer(id)
    ensures Ordered(ops, m, Pop(p, id))
  {
    var at := PopKeys(p, id);
    var q := Pop(p, id);
    forall a: nat, b: nat, k: nat, l: nat | a < b < |q| && Opened(ops, q[a].id, k, m) && Opened(ops, q[b].id, l, m)
      ensures k < l
    {
      OpenedNext(ops, q[a].id, k, n);
      OpenedNext(ops, q[b].id, l, n);
      assert q[a] == p[if a < at then a else a + 1] && q[b] == p[if b < at then b else b + 1];
    }
  }

  lemma ListsAnswered(ops: Ops, n: nat, m: nat, p: Pending, id: string)
    requires n < |ops| && m == n + 1 && Lists(ops, n, p) && ops[n] == Answer(id)
    ensures Lists(ops, m, Pop(p, id))
  {
    hide Ordered;
    OrderedAnswered(ops, n, m, p, id);
    PopDistinct(p, id);
    forall x ensures Has(Pop(p, id), x) <==> AnyOpen(ops, x, m) {
      PopHas(p, id, x);
      AnyOpenNext(ops, x, n);
    }
    forall x, j: nat | OpenUnder(ops, x, j, m) ensures Get(Pop(p, id), x) == ops[j].claims.value {
      OpenNext(ops, x, j, n);
      GetPop(p, id, x);
    }
  }

  lemma {:induction false} PopDistinct(p: Pending, id: string)
    requires Distinct(p)
    ensures Distinct(Pop(p, id))
  {
    var at := PopKeys(p, id);
  }

  lemma OrderedAsked(ops: Ops, n: nat, m: nat, p: Pending, id: string, claims: seq<Claim>)
    requires n < |ops| && m == n + 1 && Ordered(ops, n, p) && Keyed(ops, n, p)
    requires TakenUp(ops, n) && ops[n].id.value == id
    ensures Ordered(ops, m, Put(p, id, claims))
  {
    var q := Put(p, id, claims);
    PutKeys(p, id, claims);
    forall a: nat, b: nat, k: nat, l: nat | a < b < |q| && Opened(ops, q[a].id, k, m) && Opened(ops, q[b].id, l, m)
      ensures k < l
    {
      OpenedNext(ops, q[a].id, k, n);
      OpenedNext(ops, q[b].id, l, n);
      assert q[a].id == p[a].id && Has(p, q[a].id);
      if b < |p| {
        assert q[b].id == p[b].id && Has(p, q[b].id);
      } else if Opened(ops, id, l, n) {
        OpenedIsOpen(ops, id, l, n);
      }
    }
  }

  lemma PutDistinct(p: Pending, id: string, claims: seq<Claim>)
    requires Distinct(p)
    ensures Distinct(Put(p, id, claims))
  {
    PutKeys(p, id, claims);
    if !Has(p, id) { assert forall i :: 0 <= i < |p| ==> Has(p, p[i].id); }
  }

  lemma ListsAsked(ops: Ops, n: nat, m: nat, p: Pending)
    requires n < |ops| && m == n + 1 && Lists(ops, n, p) && TakenUp(ops, n)
    ensures Lists(ops, m, Put(p, ops[n].id.value, ops[n].claims.value))
  {
    hide Ordered;
    var id, claims := ops[n].id.value, ops[n].claims.value;
    OrderedAsked(ops, n, m, p, id, claims);
    PutDistinct(p, id, claims);
    forall x ensures Has(Put(p, id, claims), x) <==> AnyOpen(ops, x, m) {
      PutHas(p, id, claims, x);
      AnyOpenNext(ops, x, n);
    }
    forall x, j: nat | OpenUnder(ops, x, j, m) ensures Get(Put(p, id, claims), x) == ops[j].claims.value {
      OpenNext(ops, x, j, n);
      GetPut(p, id, claims, x);
    }
  }

  // ----- Every operation keeps the account -----

  lemma CountNext(ops: Ops, n: nat, m: nat, o: Open)
    requires n < |ops| && m == n + 1 && Holds(ops, n, o)
    ensures |Flatten(Apply(o, ops[n]).pending)| == OpenCount(ops, m, m)
  {
    hide Lists, OpenCount;
    match ops[n]
    case Boundary => CountCleared(ops, m, n);
    case Answer(id) =>
      CountClosing(ops, id, n, n);
      CountIsEntry(ops, n, o, id);
      FlattenPop(o.pending, id);
      CountLast(ops, n, m);
    case Ask(_, _) =>
      if TakenUp(ops, n) {
        var id := ops[n].id.value;
        CountClosing(ops, id, n, n);
        CountIsEntry(ops, n, o, id);
        FlattenPutLength(o.pending, id, ops[n].claims.value);
      } else {
        CountKept(ops, n, n);
      }
      TakenIsAccepted(ops, n, o);
      CountLast(ops, n, m);
  }

  lemma CountLast(ops: Ops, n: nat, m: nat)
    requires n < |ops| && m == n + 1
    ensures OpenCount(ops, m, m) == OpenCount(ops, n, m) + if TakenUp(ops, n) then |ops[n].claims.value| else 0
  {
  }

  lemma TakenIsAccepted(ops: Ops, n: nat, o: Open)
    requires n < |ops| && |Flatten(o.pending)| == OpenCount(ops, n, n)
    ensures TakenUp(ops, n) <==> Accepts(o, ops[n])
  {
  }

  lemma HoldsNext(ops: Ops, n: nat, m: nat, o: Open)
    requires n < |ops| && m == n + 1 && Holds(ops, n, o)
    ensures Holds(ops, m, Apply(o, ops[n]))
  {
    hide Lists, OpenCount, AnyRefused;
    CountNext(ops, n, m, o);
    RefusedNext(ops, n);
    TakenIsAccepted(ops, n, o);
    match ops[n]
    case Boundary => ListsCleared(ops, n, m);
    case Answer(id) => ListsAnswered(ops, n, m, o.pending, id);
    case Ask(_, _) =>
      if TakenUp(ops, n) { ListsAsked(ops, n, m, o.pending); } else { ListsKept(ops, n, m, o.pending); }
  }

  /** After any operations the loop state holds exactly the open calls, in the order in which they
      opened, and is marked unknown exactly while an ask was refused since the last turn end. */
  lemma {:induction false} OpenExactly(ops: Ops, n: nat)
    requires n <= |ops|
    ensures Holds(ops, n, ApplyAll(Open([], false), ops[..n]))
  {
    if n == 0 {
      assert ops[..0] == [];
    } else {
      OpenExactly(ops, n - 1);
      assert ops[..n][..n - 1] == ops[..n - 1] && ops[..n][n - 1] == ops[n - 1];
      HoldsNext(ops, n - 1, n, ApplyAll(Open([], false), ops[..n - 1]));
    }
  }

  // ----- What is shown -----

  /** The claims of all entries, one entry after the other. */
  function Chain(p: Pending): seq<Claim> {
    if p == [] then [] else Chain(p[..|p| - 1]) + p[|p| - 1].claims
  }

  lemma {:induction false} FlattenIsChain(p: Pending)
    ensures Flatten(p) == Chain(p)
  {
    if p != [] {
      var n := |p| - 1;
      assert p == p[..n] + [p[n]] && [p[n]][1..] == [];
      FlattenIsChain(p[..n]);
      FlattenConcat(p[..n], [p[n]]);
    }
  }

  /** The open questions in the order in which their calls opened, or nothing while a refused ask
      leaves them unknown. */
  ghost predicate ShowsQuestions(ops: Ops, kind: Kind, shown: Collection<Claim>) {
    if AnyRefused(ops, |ops|) then shown == Collection([], Unknown, None, Some(QuestionsUnsupported(kind)))
    else exists p: Pending :: Lists(ops, |ops|, p) && shown == Collection(Chain(p), Exact, Some(kind), None)
  }

  lemma QuestionsShown(ops: Ops, kind: Kind)
    ensures ShowsQuestions(ops, kind, Shown(ApplyAll(Open([], false), ops), kind))
  {
    hide Lists, AnyRefused;
    assert ops[..|ops|] == ops;
    OpenExactly(ops, |ops|);
    FlattenIsChain(ApplyAll(Open([], false), ops).pending);
  }
}
