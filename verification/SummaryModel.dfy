/** The immutable values the summary reducers share (`summary/model.py`), and the open-question
    dictionary both reducers keep beside the snapshot while they fold one batch of events. */
module SummaryModel {
  import opened Text

  const RECENT_ACTIVITY_LIMIT: nat := 8
  const MAX_COLLECTION_ITEMS: nat := 32
  const MAX_BACKGROUND_TASKS: nat := 32
  const MAX_UNKNOWN_REASONS: nat := 8

  datatype Provenance = Exact | Structural | Unknown

  /** The evidence kinds, written as the source's strings by `KindName`. */
  datatype Kind =
    | EventStream | HumanMessage | AgentMessage | ToolUse | ToolResult | ToolError | TodoWrite
    | AskUserQuestion | AssistantFinal | BackgroundTask | Compacted | FunctionCall
    | FunctionCallOutput | UpdatePlan | RequestUserInput | TurnBoundary | SourceError
    | ExecCommandEnd | PatchApplyEnd | Unrecognized | Question

  datatype Reason =
    | NoHumanRequest | NoPlan | NoCommandFailure | NoCompaction | NoTurnBoundary
    | NoDisplayableText(kind: Kind)
    | PlanUnsupported(kind: Kind) | PlanTooLong(kind: Kind)
    | PlanItemUnsupported(kind: Kind) | PlanItemIncomplete(kind: Kind)
    | QuestionsUnsupported(kind: Kind)
    | ClaudePayload | ClaudeToolName | ClaudeBackgroundTasks
    | CodexPayload | CodexToolName | CodexUnsupportedEvent
    | Malformed(records: nat)
    | UnsupportedSource(source: string)
    | UnknownSource

  datatype Claim = Claim(text: Option<string>, provenance: Provenance, kind: Option<Kind>, id: Option<string>,
                         reason: Option<Reason>)

  function UnknownClaim(reason: Reason): Claim {
    Claim(None, Unknown, None, None, Some(reason))
  }

  function ExactClaim(text: string, kind: Kind, id: Option<string>): Claim {
    var rendered := SanitizeText(text);
    if rendered == "" then UnknownClaim(NoDisplayableText(kind)) else Claim(Some(rendered), Exact, Some(kind), id, None)
  }

  function StructuralClaim(text: string, kind: Kind, id: Option<string>): Claim {
    Claim(Some(SanitizeText(text)), Structural, Some(kind), id, None)
  }

  /** A fact whose value is known to be absent: `Claim(None, STRUCTURAL, kind, id)`. */
  function Quiet(kind: Kind, id: Option<string>): Claim {
    Claim(None, Structural, Some(kind), id, None)
  }

  datatype TaskItem = TaskItem(text: string, status: string)

  datatype Collection<T> = Collection(items: seq<T>, provenance: Provenance, kind: Option<Kind>, reason: Option<Reason>)

  datatype Activity = Activity(text: string, provenance: Provenance, kind: Kind, id: Option<string>)

  datatype Snapshot = Snapshot(
    source: string,
    sessionKey: string,
    request: Claim,
    recent: seq<Activity>,
    tasks: Collection<TaskItem>,
    questions: Collection<Claim>,
    command: Claim,
    background: set<string>,
    compaction: Claim,
    turn: Claim,
    integrity: Provenance,
    reasons: seq<Reason>)

  const TURN_OPEN := "Agent turn open"
  const TURN_RETURNED := "Turn returned to human"
  const TURN_ABORTED := "Turn aborted"
  const TURN_AWAITING := "Awaiting explicit answer"

  function FreshSnapshot(source: string, key: string): Snapshot {
    Snapshot(source, key, UnknownClaim(NoHumanRequest), [],
             Collection([], Unknown, None, Some(NoPlan)),
             Collection([], Structural, Some(EventStream), None),
             UnknownClaim(NoCommandFailure), {}, UnknownClaim(NoCompaction),
             UnknownClaim(NoTurnBoundary), Exact, [])
  }

  /** The snapshot both reducers start from when no initial one is given. */
  function StartingSnapshot(source: string, key: string): Snapshot {
    FreshSnapshot(source, key).(command := Quiet(EventStream, None))
  }

  function LastOf<T>(s: seq<T>, n: nat): (r: seq<T>)
    ensures |r| <= n && |r| <= |s|
    ensures s != [] && n > 0 ==> r != [] && r[|r| - 1] == s[|s| - 1]
    ensures forall i :: 0 <= i < |r| ==> r[i] in s
  {
    if |s| <= n then s else s[|s| - n..]
  }

  function AppendReason(reasons: seq<Reason>, reason: Reason): seq<Reason> {
    if reason in reasons then reasons else LastOf(reasons + [reason], MAX_UNKNOWN_REASONS)
  }

  function UnknownCollection<T>(reason: Reason): Collection<T> {
    Collection([], Unknown, None, Some(reason))
  }

  /** `SummarySnapshot.with_unknown`. */
  function WithUnknown(s: Snapshot, reason: Reason): Snapshot {
    s.(request := UnknownClaim(reason), tasks := UnknownCollection(reason), questions := UnknownCollection(reason),
       command := UnknownClaim(reason), turn := UnknownClaim(reason), integrity := Unknown,
       reasons := AppendReason(s.reasons, reason))
  }

  function AppendRecent(current: seq<Activity>, text: string, provenance: Provenance, kind: Kind,
                        id: Option<string>): seq<Activity> {
    var rendered := SanitizeText(text);
    if rendered == "" then current
    else LastOf(current + [Activity(rendered, provenance, kind, id)], RECENT_ACTIVITY_LIMIT)
  }

  predicate IsCall(a: Activity, id: string) {
    a.id == Some(id) && (a.kind == ToolUse || a.kind == FunctionCall)
  }

  /** The last call recorded under `id`, or -1. */
  function LastCall(current: seq<Activity>, id: string): (k: int)
    ensures -1 <= k < |current|
    ensures k >= 0 ==> IsCall(current[k], id)
    ensures forall j :: k < j < |current| ==> !IsCall(current[j], id)
  {
    if current == [] then -1
    else if IsCall(current[|current| - 1], id) then |current| - 1
    else LastCall(current[..|current| - 1], id)
  }

  function FoldRecentResult(current: seq<Activity>, text: string, kind: Kind, id: Option<string>): seq<Activity> {
    var rendered := SanitizeText(text);
    var k := if id.Some? then LastCall(current, id.value) else -1;
    if k >= 0 then
      var item := current[k];
      var folded := if rendered != "" then item.text + ": " + rendered else item.text;
      current[k := Activity(folded, item.provenance, kind, id)]
    else AppendRecent(current, rendered, Exact, kind, id)
  }

  /** A structured plan as decoded from a tool input; a text that is not a string decodes to "". */
  datatype PlanItem = NotAnObject | PlanItem(text: string, status: string)
  datatype Plan = NotAList | Plan(items: seq<PlanItem>)

  datatype QuestionItem = NotAQuestion | QuestionItem(text: string)
  datatype Questions = NotQuestions | Questions(items: seq<QuestionItem>)

  function PlanTasks(items: seq<PlanItem>, kind: Kind): Collection<TaskItem> {
    if items == [] then Collection([], Exact, Some(kind), None)
    else if items[0].NotAnObject? then UnknownCollection(PlanItemUnsupported(kind))
    else
      var text, status := SanitizeText(items[0].text), SanitizeText(items[0].status);
      if text == "" || status == "" then UnknownCollection(PlanItemIncomplete(kind))
      else
        var rest := PlanTasks(items[1..], kind);
        if rest.provenance == Unknown then rest
        else rest.(items := [TaskItem(text, status)] + rest.items)
  }

  function TaskCollection(plan: Plan, kind: Kind): Collection<TaskItem> {
    if plan.NotAList? then UnknownCollection(PlanUnsupported(kind))
    else if |plan.items| > MAX_COLLECTION_ITEMS then UnknownCollection(PlanTooLong(kind))
    else PlanTasks(plan.items, kind)
  }

  function ClaimsOf(items: seq<QuestionItem>, kind: Kind, id: string): (claims: Option<seq<Claim>>)
    ensures claims.Some? ==> |claims.value| == |items|
    ensures claims.Some? ==> forall i :: 0 <= i < |items| ==> claims.value[i].id == Some(id)
  {
    if items == [] then Some([])
    else if items[0].NotAQuestion? then None
    else
      var claim := ExactClaim(items[0].text, kind, Some(id));
      if claim.provenance == Unknown then None
      else
        var rest := ClaimsOf(items[1..], kind, id);
        if rest.None? then None else Some([claim] + rest.value)
  }

  /** `question_claims`: every question usable, or nothing. */
  function QuestionClaims(questions: Questions, kind: Kind, id: string): (claims: Option<seq<Claim>>)
    ensures claims.Some? ==> |claims.value| <= MAX_COLLECTION_ITEMS
    ensures claims.Some? ==> forall i :: 0 <= i < |claims.value| ==> claims.value[i].id == Some(id)
  {
    if questions.NotQuestions? || |questions.items| > MAX_COLLECTION_ITEMS then None
    else ClaimsOf(questions.items, kind, id)
  }

  // ----- The open-question dictionary: call id to claims, in insertion order -----

  datatype Entry = Entry(id: string, claims: seq<Claim>)
  type Pending = seq<Entry>

  predicate Distinct(p: Pending) {
    forall i, j :: 0 <= i < j < |p| ==> p[i].id != p[j].id
  }

  predicate Tagged(p: Pending) {
    forall i, j :: 0 <= i < |p| && 0 <= j < |p[i].claims| ==> p[i].claims[j].id == Some(p[i].id)
  }

  /** Only a call with a usable id can be recorded with no question at all. */
  predicate Named(p: Pending) {
    forall i :: 0 <= i < |p| && p[i].claims == [] ==> p[i].id != ""
  }

  predicate WellFormed(p: Pending) {
    Distinct(p) && Tagged(p) && Named(p)
  }

  predicate Has(p: Pending, id: string) {
    exists i :: 0 <= i < |p| && p[i].id == id
  }

  /** `pending.get(id, ())`. */
  function Get(p: Pending, id: string): seq<Claim> {
    if p == [] then [] else if p[0].id == id then p[0].claims else Get(p[1..], id)
  }

  /** `pending[id] = claims`: an existing key keeps its place, a new one goes last. */
  function Put(p: Pending, id: string, claims: seq<Claim>): Pending {
    if p == [] then [Entry(id, claims)]
    else if p[0].id == id then [Entry(id, claims)] + p[1..]
    else [p[0]] + Put(p[1..], id, claims)
  }

  /** `pending.pop(id, None)`. */
  function Pop(p: Pending, id: string): Pending {
    if p == [] then [] else if p[0].id == id then p[1..] else [p[0]] + Pop(p[1..], id)
  }

  /** Every open claim, in dictionary order. */
  function Flatten(p: Pending): seq<Claim> {
    if p == [] then [] else p[0].claims + Flatten(p[1..])
  }

  /** `pending_questions`, from a dictionary already holding `p`. */
  function GroupFrom(p: Pending, claims: seq<Claim>): Pending
    decreases |claims|
  {
    if claims == [] then p
    else if claims[0].id.None? then GroupFrom(p, claims[1..])
    else GroupFrom(Put(p, claims[0].id.value, Get(p, claims[0].id.value) + [claims[0]]), claims[1..])
  }

  function PendingQuestions(s: Snapshot): Pending {
    GroupFrom([], s.questions.items)
  }

  predicate NoEmpty(p: Pending) {
    forall i :: 0 <= i < |p| ==> p[i].claims != []
  }

  /** The entries whose key is not in `ids`. */
  function Without(p: Pending, ids: set<string>): Pending {
    if p == [] then [] else if p[0].id in ids then Without(p[1..], ids) else [p[0]] + Without(p[1..], ids)
  }

  function EmptyIds(p: Pending): set<string> {
    if p == [] then {} else (if p[0].claims == [] then {p[0].id} else {}) + EmptyIds(p[1..])
  }

  // ----- The loops of the source -----

  /** A collection with earlier items before its own, unless it is unknown. */
  function Prefixed(done: seq<TaskItem>, rest: Collection<TaskItem>): Collection<TaskItem> {
    if rest.provenance == Unknown then rest else rest.(items := done + rest.items)
  }

  lemma PrefixedTwice(a: seq<TaskItem>, b: seq<TaskItem>, rest: Collection<TaskItem>)
    ensures Prefixed(a, Prefixed(b, rest)) == Prefixed(a + b, rest) && Prefixed([], rest) == rest
  {
    assert a + (b + rest.items) == (a + b) + rest.items && [] + rest.items == rest.items;
  }

  lemma PlanStep(items: seq<PlanItem>, i: nat, kind: Kind)
    requires i < |items| && items[i].PlanItem? && SanitizeText(items[i].text) != ""
             && SanitizeText(items[i].status) != ""
    ensures PlanTasks(items[i..], kind) ==
            Prefixed([TaskItem(SanitizeText(items[i].text), SanitizeText(items[i].status))],
                     PlanTasks(items[i + 1..], kind))
  {
    hide SanitizeText;
    assert items[i..][1..] == items[i + 1..];
  }

  /** `task_collection`: item by item, giving up at the first unusable one. */
  method CollectTasks(plan: Plan, kind: Kind) returns (tasks: Collection<TaskItem>)
    ensures tasks == TaskCollection(plan, kind)
  {
    hide SanitizeText, Prefixed;
    if plan.NotAList? { return UnknownCollection(PlanUnsupported(kind)); }
    var items := plan.items;
    if |items| > MAX_COLLECTION_ITEMS { return UnknownCollection(PlanTooLong(kind)); }
    var done: seq<TaskItem> := [];
    assert items[0..] == items;
    PrefixedTwice([], [], PlanTasks(items, kind));
    for i := 0 to |items|
      invariant PlanTasks(items, kind) == Prefixed(done, PlanTasks(items[i..], kind))
    {
      if items[i].NotAnObject? {
        UnknownEnds(done, PlanTasks(items[i..], kind));
        return UnknownCollection(PlanItemUnsupported(kind));
      }
      var text, status := SanitizeText(items[i].text), SanitizeText(items[i].status);
      if text == "" || status == "" {
        UnknownEnds(done, PlanTasks(items[i..], kind));
        return UnknownCollection(PlanItemIncomplete(kind));
      }
      PlanStep(items, i, kind);
      PrefixedTwice(done, [TaskItem(text, status)], PlanTasks(items[i + 1..], kind));
      done := done + [TaskItem(text, status)];
    }
    assert items[|items|..] == [];
    PlanEnds(done, kind);
    tasks := Collection(done, Exact, Some(kind), None);
  }

  lemma UnknownEnds(done: seq<TaskItem>, rest: Collection<TaskItem>)
    ensures rest.provenance == Unknown ==> Prefixed(done, rest) == rest
  {
  }

  lemma PlanEnds(done: seq<TaskItem>, kind: Kind)
    ensures Prefixed(done, PlanTasks([], kind)) == Collection(done, Exact, Some(kind), None)
  {
    assert done + [] == done;
  }

  function WithEarlier(done: seq<Claim>, rest: Option<seq<Claim>>): Option<seq<Claim>> {
    if rest.None? then None else Some(done + rest.value)
  }

  lemma EarlierTwice(a: seq<Claim>, b: seq<Claim>, rest: Option<seq<Claim>>)
    ensures WithEarlier(a, WithEarlier(b, rest)) == WithEarlier(a + b, rest) && WithEarlier([], rest) == rest
            && WithEarlier(a, Some([])) == Some(a)
  {
    if rest.Some? { assert a + (b + rest.value) == (a + b) + rest.value && [] + rest.value == rest.value; }
    assert a + [] == a;
  }

  lemma ClaimStep(items: seq<QuestionItem>, i: nat, kind: Kind, id: string)
    requires i < |items|
    ensures var rest := ClaimsOf(items[i + 1..], kind, id);
            ClaimsOf(items[i..], kind, id) ==
            if items[i].NotAQuestion? || ExactClaim(items[i].text, kind, Some(id)).provenance == Unknown then None
            else WithEarlier([ExactClaim(items[i].text, kind, Some(id))], rest)
  {
    hide ExactClaim;
    assert items[i..][1..] == items[i + 1..];
  }

  /** `question_claims`: every question usable, or nothing. */
  method CollectClaims(questions: Questions, kind: Kind, id: string) returns (claims: Option<seq<Claim>>)
    ensures claims == QuestionClaims(questions, kind, id)
  {
    hide ExactClaim, ClaimsOf, WithEarlier;
    if questions.NotQuestions? || |questions.items| > MAX_COLLECTION_ITEMS { return None; }
    var items := questions.items;
    var done: seq<Claim> := [];
    assert items[0..] == items;
    EarlierTwice([], [], ClaimsOf(items, kind, id));
    for i := 0 to |items|
      invariant ClaimsOf(items, kind, id) == WithEarlier(done, ClaimsOf(items[i..], kind, id))
    {
      ClaimStep(items, i, kind, id);
      NothingEarlier(done);
      if items[i].NotAQuestion? { return None; }
      var claim := ExactClaim(items[i].text, kind, Some(id));
      if claim.provenance == Unknown { return None; }
      EarlierTwice(done, [claim], ClaimsOf(items[i + 1..], kind, id));
      done := done + [claim];
    }
    assert items[|items|..] == [];
    NoClaims(kind, id);
    EarlierTwice(done, [], None);
    claims := Some(done);
  }

  lemma NothingEarlier(done: seq<Claim>)
    ensures WithEarlier(done, None) == None
  {
  }

  lemma NoClaims(kind: Kind, id: string)
    ensures ClaimsOf([], kind, id) == Some([])
  {
  }

  /** `pending_questions`: the dictionary filled claim by claim. */
  method GroupQuestions(s: Snapshot) returns (pending: Pending)
    ensures pending == PendingQuestions(s)
  {
    hide Put, Get;
    var claims := s.questions.items;
    pending := [];
    for i := 0 to |claims|
      invariant PendingQuestions(s) == GroupFrom(pending, claims[i..])
    {
      assert claims[i..][1..] == claims[i + 1..];
      var claim := claims[i];
      if claim.id.Some? { pending := Put(pending, claim.id.value, Get(pending, claim.id.value) + [claim]); }
    }
  }

  /** `fold_recent_result`: newest first, the call it answers; otherwise a new item. */
  method FoldResult(current: seq<Activity>, text: string, kind: Kind, id: Option<string>)
    returns (recent: seq<Activity>)
    ensures recent == FoldRecentResult(current, text, kind, id)
  {
    hide SanitizeText, AppendRecent;
    var rendered := SanitizeText(text);
    if id.Some? {
      var n := |current|;
      assert current[..n] == current;
      while n > 0
        invariant 0 <= n <= |current| && LastCall(current, id.value) == LastCall(current[..n], id.value)
      {
        var item := current[n - 1];
        assert current[..n][..n - 1] == current[..n - 1];
        if IsCall(item, id.value) {
          var folded :=
            Activity(if rendered != "" then item.text + ": " + rendered else item.text, item.provenance, kind, id);
          return current[..n - 1] + [folded] + current[n..];
        }
        n := n - 1;
      }
    }
    recent := AppendRecent(current, rendered, Exact, kind, id);
  }

  // ----- Facts about the dictionary -----

  lemma {:induction false} PutHas(p: Pending, id: string, claims: seq<Claim>, k: string)
    ensures Has(Put(p, id, claims), k) <==> Has(p, k) || k == id
  {
    if p != [] {
      HasCons(p, k);
      HasCons(Put(p, id, claims), k);
      if p[0].id != id {
        PutHas(p[1..], id, claims, k);
      }
    } else {
      assert Has(Put(p, id, claims), k) <==> k == id by { if k == id { assert Put(p, id, claims)[0].id == k; } }
    }
  }

  lemma {:induction false} HasCons(p: Pending, k: string)
    requires p != []
    ensures Has(p, k) <==> p[0].id == k || Has(p[1..], k)
  {
    if Has(p, k) {
      var i :| 0 <= i < |p| && p[i].id == k;
      if i > 0 { assert p[1..][i - 1].id == k; }
    }
    if Has(p[1..], k) {
      var i :| 0 <= i < |p[1..]| && p[1..][i].id == k;
      assert p[i + 1].id == k;
    }
  }

  lemma {:induction false} PopHas(p: Pending, id: string, k: string)
    requires Distinct(p)
    ensures Has(Pop(p, id), k) <==> Has(p, k) && k != id
  {
    if p != [] {
      HasCons(p, k);
      if p[0].id == id {
        assert !Has(p[1..], id);
      } else {
        HasCons(Pop(p, id), k);
        assert Pop(p, id)[1..] == Pop(p[1..], id);
        PopHas(p[1..], id, k);
      }
    }
  }

  lemma {:induction false} PutWellFormed(p: Pending, id: string, claims: seq<Claim>)
    requires WellFormed(p)
    requires forall j :: 0 <= j < |claims| ==> claims[j].id == Some(id)
    requires claims == [] ==> id != ""
    ensures WellFormed(Put(p, id, claims))
  {
    if p != [] && p[0].id != id {
      PutWellFormed(p[1..], id, claims);
      var q := Put(p[1..], id, claims);
      forall i | 0 <= i < |q| ensures q[i].id != p[0].id {
        if q[i].id == p[0].id {
          assert Has(q, p[0].id);
          PutHas(p[1..], id, claims, p[0].id);
        }
      }
    }
  }

  lemma {:induction false} PopWellFormed(p: Pending, id: string)
    requires WellFormed(p)
    ensures WellFormed(Pop(p, id))
  {
    if p != [] && p[0].id != id {
      PopWellFormed(p[1..], id);
      var q := Pop(p[1..], id);
      forall i | 0 <= i < |q| ensures q[i].id != p[0].id {
        if q[i].id == p[0].id {
          assert Has(q, p[0].id);
          PopHas(p[1..], id, p[0].id);
        }
      }
    }
  }

  lemma {:induction false} GetAbsent(p: Pending, id: string)
    requires !Has(p, id)
    ensures Get(p, id) == [] && Pop(p, id) == p
  {
    if p != [] {
      HasCons(p, id);
      GetAbsent(p[1..], id);
    }
  }

  lemma {:induction false} GetPut(p: Pending, id: string, claims: seq<Claim>, k: string)
    ensures Get(Put(p, id, claims), k) == if k == id then claims else Get(p, k)
  {
    if p != [] && p[0].id != id {
      GetPut(p[1..], id, claims, k);
    }
  }

  lemma {:induction false} GetPop(p: Pending, id: string, k: string)
    requires Distinct(p)
    ensures Get(Pop(p, id), k) == if k == id then [] else Get(p, k)
  {
    if p != [] {
      if p[0].id == id {
        assert !Has(p[1..], id);
        GetAbsent(p[1..], id);
      } else {
        GetPop(p[1..], id, k);
      }
    }
  }

  lemma {:induction false} FlattenPut(p: Pending, id: string, claims: seq<Claim>)
    ensures multiset(Flatten(Put(p, id, claims))) == multiset(Flatten(p)) - multiset(Get(p, id)) + multiset(claims)
    ensures multiset(Get(p, id)) <= multiset(Flatten(p))
  {
    if p == [] {
      assert Put(p, id, claims)[1..] == [];
      assert Flatten(Put(p, id, claims)) == claims;
    } else {
      var a, f := multiset(p[0].claims), multiset(Flatten(p[1..]));
      assert multiset(Flatten(p)) == a + f;
      if p[0].id != id {
        FlattenPut(p[1..], id, claims);
        assert Put(p, id, claims)[1..] == Put(p[1..], id, claims);
        assert multiset(Flatten(Put(p, id, claims))) == a + multiset(Flatten(Put(p[1..], id, claims)));
        assert a + (f - multiset(Get(p[1..], id)) + multiset(claims)) == a + f - multiset(Get(p[1..], id))
               + multiset(claims);
      } else {
        assert Put(p, id, claims)[1..] == p[1..];
        assert multiset(Flatten(Put(p, id, claims))) == multiset(claims) + f;
      }
    }
  }

  lemma {:induction false} FlattenPutLength(p: Pending, id: string, claims: seq<Claim>)
    ensures |Flatten(Put(p, id, claims))| + |Get(p, id)| == |Flatten(p)| + |claims|
  {
    if p == [] {
      assert Put(p, id, claims)[1..] == [];
    } else if p[0].id != id {
      FlattenPutLength(p[1..], id, claims);
      assert Put(p, id, claims)[1..] == Put(p[1..], id, claims);
    } else {
      assert Put(p, id, claims)[1..] == p[1..];
    }
  }

  lemma {:induction false} FlattenPop(p: Pending, id: string)
    ensures multiset(Flatten(Pop(p, id))) == multiset(Flatten(p)) - multiset(Get(p, id))
    ensures |Flatten(Pop(p, id))| + |Get(p, id)| == |Flatten(p)|
    ensures multiset(Get(p, id)) <= multiset(Flatten(p))
  {
    if p != [] {
      var a, f := multiset(p[0].claims), multiset(Flatten(p[1..]));
      assert multiset(Flatten(p)) == a + f;
      if p[0].id != id {
        FlattenPop(p[1..], id);
        assert Pop(p, id)[1..] == Pop(p[1..], id);
        assert multiset(Flatten(Pop(p, id))) == a + (f - multiset(Get(p[1..], id)));
      }
    }
  }

  lemma {:induction false} FlattenConcat(p: Pending, q: Pending)
    ensures Flatten(p + q) == Flatten(p) + Flatten(q)
  {
    if p == [] {
      assert p + q == q;
    } else {
      assert (p + q)[1..] == p[1..] + q;
      FlattenConcat(p[1..], q);
    }
  }

  // ----- Regrouping the flattened dictionary -----

  lemma {:induction false} GroupFromConcat(p: Pending, a: seq<Claim>, b: seq<Claim>)
    ensures GroupFrom(p, a + b) == GroupFrom(GroupFrom(p, a), b)
    decreases |a|
  {
    if a == [] {
      assert a + b == b;
    } else {
      assert (a + b)[0] == a[0] && (a + b)[1..] == a[1..] + b;
      GroupFromConcat(if a[0].id.Some? then Put(p, a[0].id.value, Get(p, a[0].id.value) + [a[0]]) else p, a[1..], b);
    }
  }

  lemma {:induction false} PutLast(p: Pending, id: string, was: seq<Claim>, claims: seq<Claim>)
    requires !Has(p, id)
    ensures Put(p, id, claims) == p + [Entry(id, claims)]
    ensures Put(p + [Entry(id, was)], id, claims) == p + [Entry(id, claims)]
    ensures Get(p + [Entry(id, was)], id) == was
  {
    if p == [] {
      assert p + [Entry(id, was)] == [Entry(id, was)];
    } else {
      HasCons(p, id);
      PutLast(p[1..], id, was, claims);
      assert (p + [Entry(id, was)])[1..] == p[1..] + [Entry(id, was)];
    }
  }

  /** Regrouping the claims of one call puts them back under one last entry. */
  lemma {:induction false} GroupOneCall(p: Pending, id: string, done: seq<Claim>, claims: seq<Claim>)
    requires !Has(p, id)
    requires forall j :: 0 <= j < |claims| ==> claims[j].id == Some(id)
    ensures done != [] ==> GroupFrom(p + [Entry(id, done)], claims) == p + [Entry(id, done + claims)]
    ensures done == [] && claims != [] ==> GroupFrom(p, claims) == p + [Entry(id, claims)]
    decreases |claims|
  {
    if claims == [] {
      assert done + claims == done;
    } else {
      var more := done + [claims[0]];
      assert more + claims[1..] == done + claims;
      PutLast(p, id, done, more);
      GetAbsent(p, id);
      GroupOneCall(p, id, more, claims[1..]);
      if done == [] {
        assert Get(p, id) + [claims[0]] == more;
        assert done + claims == claims;
      }
    }
  }

  /** Rebuilding the dictionary from a snapshot's claims loses exactly its empty entries. */
  lemma {:induction false} RegroupFlatten(p: Pending)
    requires WellFormed(p)
    ensures GroupFrom([], Flatten(p)) == Without(p, EmptyIds(p))
  {
    if p != [] {
      var n := |p| - 1;
      var q, e := p[..n], p[n];
      assert p == q + [e];
      RegroupFlatten(q);
      FlattenConcat(q, [e]);
      assert [e][1..] == [];
      assert Flatten([e]) == e.claims;
      GroupFromConcat([], Flatten(q), e.claims);
      assert !Has(q, e.id);
      WithoutSnoc(q, e, EmptyIds(p));
      EmptyIdsSnoc(q, e);
      EmptyIdsHas(q);
      WithoutIrrelevant(q, EmptyIds(q), EmptyIds(p));
      var r := Without(q, EmptyIds(q));
      WithoutHas(q, EmptyIds(q), e.id);
      if e.claims != [] {
        GroupOneCall(r, e.id, [], e.claims);
        assert e.id !in EmptyIds(p);
      } else {
        assert e.id in EmptyIds(p);
      }
    }
  }

  lemma {:induction false} WithoutSnoc(p: Pending, e: Entry, ids: set<string>)
    ensures Without(p + [e], ids) == Without(p, ids) + if e.id in ids then [] else [e]
  {
    if p == [] {
      assert p + [e] == [e];
    } else {
      assert (p + [e])[1..] == p[1..] + [e];
      WithoutSnoc(p[1..], e, ids);
    }
  }

  lemma {:induction false} EmptyIdsSnoc(p: Pending, e: Entry)
    ensures EmptyIds(p + [e]) == EmptyIds(p) + if e.claims == [] then {e.id} else {}
  {
    if p == [] {
      assert p + [e] == [e];
    } else {
      assert (p + [e])[1..] == p[1..] + [e];
      EmptyIdsSnoc(p[1..], e);
    }
  }

  lemma {:induction false} EmptyIdsHas(p: Pending)
    ensures forall id :: id in EmptyIds(p) ==> exists i :: 0 <= i < |p| && p[i].id == id && p[i].claims == []
    ensures forall i :: 0 <= i < |p| && p[i].claims == [] ==> p[i].id in EmptyIds(p)
  {
    if p != [] {
      EmptyIdsHas(p[1..]);
      forall id | id in EmptyIds(p) ensures exists i :: 0 <= i < |p| && p[i].id == id && p[i].claims == [] {
        if p[0].claims == [] && p[0].id == id {
          assert p[0].id == id;
        } else {
          assert id in EmptyIds(p[1..]);
          var i :| 0 <= i < |p[1..]| && p[1..][i].id == id && p[1..][i].claims == [];
          assert p[i + 1].id == id;
        }
      }
      forall i | 0 <= i < |p| && p[i].claims == [] ensures p[i].id in EmptyIds(p) {
        if i > 0 { assert p[1..][i - 1] == p[i]; }
      }
    }
  }

  /** Sets of ids that agree on the keys of `p` remove the same entries. */
  lemma {:induction false} WithoutIrrelevant(p: Pending, ids: set<string>, ids': set<string>)
    requires forall i :: 0 <= i < |p| ==> (p[i].id in ids <==> p[i].id in ids')
    ensures Without(p, ids) == Without(p, ids')
  {
    if p != [] { WithoutIrrelevant(p[1..], ids, ids'); }
  }

  lemma {:induction false} WithoutHas(p: Pending, ids: set<string>, id: string)
    ensures Has(Without(p, ids), id) <==> Has(p, id) && id !in ids
  {
    if p != [] {
      HasCons(p, id);
      WithoutHas(p[1..], ids, id);
      if p[0].id !in ids {
        HasCons(Without(p, ids), id);
        assert Without(p, ids)[1..] == Without(p[1..], ids);
      }
    }
  }

  // ----- Removing some keys commutes with the dictionary operations -----

  lemma {:induction false} WithoutPut(p: Pending, ids: set<string>, id: string, claims: seq<Claim>)
    requires id !in ids
    ensures Without(Put(p, id, claims), ids) == Put(Without(p, ids), id, claims)
  {
    if p != [] {
      WithoutPut(p[1..], ids, id, claims);
      if p[0].id == id {
        assert Put(p, id, claims)[1..] == p[1..];
      } else {
        assert Put(p, id, claims)[1..] == Put(p[1..], id, claims);
      }
    }
  }

  lemma {:induction false} WithoutPop(p: Pending, ids: set<string>, id: string)
    requires Distinct(p)
    ensures Without(Pop(p, id), ids) == Pop(Without(p, ids), id)
  {
    if p != [] {
      WithoutPop(p[1..], ids, id);
      if p[0].id == id {
        assert !Has(p[1..], id);
        WithoutHas(p[1..], ids, id);
        GetAbsent(p[1..], id);
        GetAbsent(Without(p[1..], ids), id);
      } else {
        assert Pop(p, id)[1..] == Pop(p[1..], id);
      }
    }
  }

  lemma {:induction false} FlattenWithout(p: Pending, ids: set<string>)
    requires forall i :: 0 <= i < |p| && p[i].id in ids ==> p[i].claims == []
    ensures Flatten(Without(p, ids)) == Flatten(p)
  {
    if p != [] {
      assert forall i :: 0 <= i < |p[1..]| ==> p[1..][i] == p[i + 1];
      FlattenWithout(p[1..], ids);
      if p[0].id in ids {
        assert p[0].claims == [];
      } else {
        assert Without(p, ids)[1..] == Without(p[1..], ids);
      }
    }
  }
}
