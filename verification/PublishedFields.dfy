/** Which published field shows which claim (`ui/companion_update.py`): the text the updater writes,
    read key by key against the snapshot it was built from. */
module PublishedFields {
  import opened Text
  import opened SummaryModel
  import opened CompanionState
  import opened Publish
  import Json

  // ----- The newest activity worth showing -----

  /** The claim at `k` is the last one with a text that `id` asks. */
  predicate AsksLast(claims: seq<Claim>, id: Option<string>, k: nat) {
    && id.Some? && k < |claims| && Asks(claims[k], id)
    && forall j :: k < j < |claims| ==> !Asks(claims[j], id)
  }

  predicate Asks(c: Claim, id: Option<string>) {
    c.id == id && c.text.Some? && c.text.value != ""
  }

  predicate HasQuestion(claims: seq<Claim>, id: Option<string>) {
    id.Some? && exists k :: 0 <= k < |claims| && Asks(claims[k], id)
  }

  lemma {:induction false} QuestionForExactly(claims: seq<Claim>, id: Option<string>)
    ensures QuestionFor(claims, id).Some? <==> HasQuestion(claims, id)
    ensures forall k: nat :: AsksLast(claims, id, k) ==> QuestionFor(claims, id) == claims[k].text
  {
    if claims != [] && id.Some? {
      var n := |claims| - 1;
      QuestionForExactly(claims[..n], id);
      assert HasQuestion(claims, id) <==> Asks(claims[n], id) || HasQuestion(claims[..n], id) by {
        if k :| 0 <= k < |claims| && Asks(claims[k], id) && k < n { assert Asks(claims[..n][k], id); }
        if k :| 0 <= k < n && Asks(claims[..n][k], id) { assert Asks(claims[k], id); }
      }
      forall k: nat | AsksLast(claims, id, k) ensures QuestionFor(claims, id) == claims[k].text {
        if k < n { assert AsksLast(claims[..n], id, k); }
      }
    }
  }

  /** Agent messages, errors, failures, compactions and turn ends; tool traffic is not shown. */
  predicate Signals(kind: Kind) {
    kind in {AgentMessage, ToolError, SourceError, ExecCommandEnd, PatchApplyEnd, Compacted, TurnBoundary}
  }

  predicate WorthShowing(claims: seq<Claim>, item: Activity) {
    HasQuestion(claims, item.id) || Signals(item.kind)
  }

  /** The item at `k` is the newest one worth showing. */
  predicate NewestWorth(claims: seq<Claim>, recent: seq<Activity>, k: nat) {
    && k < |recent| && WorthShowing(claims, recent[k])
    && forall j :: k < j < |recent| ==> !WorthShowing(claims, recent[j])
  }

  /** What such an item shows: the open question of its call, or itself. */
  ghost predicate ShownAs(claims: seq<Claim>, item: Activity, shown: Activity) {
    if HasQuestion(claims, item.id) then
      forall q: nat :: AsksLast(claims, item.id, q) ==>
        shown == Activity("Question: " + claims[q].text.value, item.provenance, Question, item.id)
    else shown == item
  }

  lemma CandidateExactly(claims: seq<Claim>, item: Activity)
    ensures Candidate(claims, item).Some? <==> WorthShowing(claims, item)
    ensures Candidate(claims, item).Some? ==> ShownAs(claims, item, Candidate(claims, item).value)
  {
    hide QuestionFor, HasQuestion, AsksLast;
    QuestionForExactly(claims, item.id);
    forall q: nat | AsksLast(claims, item.id, q)
      ensures q < |claims| && claims[q].text.Some?
    {
      AsksText(claims, item.id, q);
    }
  }

  lemma AsksText(claims: seq<Claim>, id: Option<string>, q: nat)
    requires AsksLast(claims, id, q)
    ensures q < |claims| && claims[q].text.Some?
  {
  }

  /** Shown is the newest item worth showing, and nothing exactly when there is none. */
  lemma {:induction false} LatestExactly(claims: seq<Claim>, recent: seq<Activity>)
    ensures Latest(claims, recent).None? <==> forall k :: 0 <= k < |recent| ==> !WorthShowing(claims, recent[k])
    ensures forall k: nat :: NewestWorth(claims, recent, k) ==>
              Latest(claims, recent).Some? && ShownAs(claims, recent[k], Latest(claims, recent).value)
  {
    hide Candidate, WorthShowing, ShownAs;
    if recent != [] {
      var n := |recent| - 1;
      CandidateExactly(claims, recent[n]);
      LatestExactly(claims, recent[..n]);
      assert forall k :: 0 <= k < n ==> recent[..n][k] == recent[k];
      forall k: nat | NewestWorth(claims, recent, k)
        ensures Latest(claims, recent).Some? && ShownAs(claims, recent[k], Latest(claims, recent).value)
      {
        if k < n { assert NewestWorth(claims, recent[..n], k); }
      }
    }
  }

  /** The length and the first letter of a kind's name tell it from the others. */
  function KindMark(kind: Kind): (nat, char) {
    match kind
    case EventStream => (12, 'e')
    case HumanMessage => (13, 'h')
    case AgentMessage => (13, 'a')
    case ToolUse => (8, 't')
    case ToolResult => (11, 't')
    case ToolError => (10, 't')
    case TodoWrite => (9, 'T')
    case AskUserQuestion => (15, 'A')
    case AssistantFinal => (15, 'a')
    case BackgroundTask => (15, 'b')
    case Compacted => (10, 'c')
    case FunctionCall => (13, 'f')
    case FunctionCallOutput => (20, 'f')
    case UpdatePlan => (11, 'u')
    case RequestUserInput => (18, 'r')
    case TurnBoundary => (13, 't')
    case SourceError => (5, 'e')
    case ExecCommandEnd => (16, 'e')
    case PatchApplyEnd => (15, 'p')
    case Unrecognized => (7, 'u')
    case Question => (8, 'q')
  }

  lemma KindIsMarked(kind: Kind)
    ensures |KindName(kind)| == KindMark(kind).0 && KindName(kind)[..1] == [KindMark(kind).1]
  {
  }

  /** No two kinds are published under one name. */
  lemma KindNamesDiffer(a: Kind, b: Kind)
    requires a != b
    ensures KindName(a) != KindName(b)
  {
    hide KindName;
    KindIsMarked(a);
    KindIsMarked(b);
    assert [KindMark(a).1][0] == KindMark(a).1 && [KindMark(b).1][0] == KindMark(b).1;
  }

  // ----- The fields -----

  function TextOrNull(o: Option<string>): Json.Value {
    match o
    case None => Json.Null
    case Some(text) => Json.Str(text)
  }

  predicate ListsTexts(v: Json.Value, texts: seq<string>) {
    v.Arr? && |v.items| == |texts| && forall i :: 0 <= i < |texts| ==> v.items[i] == Json.Str(texts[i])
  }

  /** The last eight of a list. */
  function LastEight(texts: seq<string>): seq<string> {
    if |texts| <= 8 then texts else texts[|texts| - 8..]
  }

  function TaskLines(items: seq<TaskItem>): seq<string> {
    if items == [] then [] else [items[0].status + ": " + items[0].text] + TaskLines(items[1..])
  }

  function Askings(claims: seq<Claim>): seq<string> {
    if claims == [] then []
    else (if claims[0].text.GetOr("") != "" then [claims[0].text.value] else []) + Askings(claims[1..])
  }

  lemma {:induction false} TaskTextsAre(items: seq<TaskItem>)
    ensures TaskTexts(items) == TaskLines(items)
  {
    if items != [] {
      TaskTextsAre(items[1..]);
      assert TaskTexts(items) == TaskTexts(items[..1]) + TaskTexts(items[1..]);
    }
  }

  lemma {:induction false} AskingsConcat(a: seq<Claim>, b: seq<Claim>)
    ensures Askings(a + b) == Askings(a) + Askings(b)
  {
    if a == [] {
      assert a + b == b;
    } else {
      assert (a + b)[1..] == a[1..] + b;
      AskingsConcat(a[1..], b);
    }
  }

  lemma {:induction false} QuestionTextsAre(claims: seq<Claim>)
    ensures QuestionTexts(claims) == Askings(claims)
  {
    if claims != [] {
      var n := |claims| - 1;
      QuestionTextsAre(claims[..n]);
      assert claims == claims[..n] + [claims[n]] && [claims[n]][1..] == [];
      AskingsConcat(claims[..n], [claims[n]]);
    }
  }

  /** The value a reader finds in the written text under `key`. */
  function Written(s: Snapshot, project: string, status: string, now: Json.RealText, key: string): Option<Json.Value> {
    var payload := Json.Decode(Encoded(StateOf(s, project, status, now)));
    if payload.Some? && payload.value.Obj? then Json.Lookup(payload.value.fields, key) else None
  }

  lemma WrittenIs(s: Snapshot, project: string, status: string, now: Json.RealText, i: nat)
    requires i < 13
    ensures Written(s, project, status, now, KEYS[i]) == Some(Values(StateOf(s, project, status, now))[i])
  {
    hide Json.Decode, Json.Encode, Json.Lookup, Values, StateOf, Fields;
    var state := StateOf(s, project, status, now);
    Json.RoundTrip(Json.Obj(Fields(state)));
    FieldIsValue(state, i);
  }

  /** Names, texts and the newest diagnostic stand under their own keys. */
  lemma TextsPublished(s: Snapshot, project: string, status: string, now: Json.RealText)
    ensures Written(s, project, status, now, "project") == Some(Json.Str(project))
    ensures Written(s, project, status, now, "source") == Some(Json.Str(s.source))
    ensures Written(s, project, status, now, "status") == Some(Json.Str(status))
    ensures Written(s, project, status, now, "request") == Some(TextOrNull(s.request.text))
    ensures Written(s, project, status, now, "command_result") == Some(TextOrNull(s.command.text))
    ensures Written(s, project, status, now, "detail") ==
            Some(if s.reasons == [] then Json.Null else Json.Str(ReasonText(s.reasons[|s.reasons| - 1])))
    ensures Written(s, project, status, now, "producer_updated_at") == Some(Json.Real(now))
    ensures Written(s, project, status, now, "schema_version") == Some(Json.Num(2))
    ensures Written(s, project, status, now, "join_state") == Some(Json.Str("JOINED"))
  {
    hide Written, Values, Latest, TaskTexts, QuestionTexts, LastOf, ReasonText, Strings, Json.SpellsReal;
    var state := StateOf(s, project, status, now);
    EarlyValuesAre(state);
    LateValuesAre(state);
    forall i: nat | i < 13 ensures Written(s, project, status, now, KEYS[i]) == Some(Values(state)[i]) {
      WrittenIs(s, project, status, now, i);
    }
    assert KEYS[4] == "project" && KEYS[10] == "source" && KEYS[11] == "status" && KEYS[8] == "request";
    assert KEYS[0] == "command_result" && KEYS[1] == "detail" && KEYS[3] == "producer_updated_at";
    assert KEYS[9] == "schema_version" && KEYS[2] == "join_state";
  }

  /** The newest activity with its kind, the last eight tasks and the last eight questions. */
  lemma ListsPublished(s: Snapshot, project: string, status: string, now: Json.RealText)
    ensures var latest := Latest(s.questions.items, s.recent);
            && Written(s, project, status, now, "recent").Some?
            && ListsTexts(Written(s, project, status, now, "recent").value,
                          if latest.Some? then [latest.value.text] else [])
            && Written(s, project, status, now, "recent_kinds").Some?
            && ListsTexts(Written(s, project, status, now, "recent_kinds").value,
                          if latest.Some? then [KindName(latest.value.kind)] else [])
    ensures Written(s, project, status, now, "tasks").Some?
            && ListsTexts(Written(s, project, status, now, "tasks").value, LastEight(TaskLines(s.tasks.items)))
    ensures Written(s, project, status, now, "questions").Some?
            && ListsTexts(Written(s, project, status, now, "questions").value, LastEight(Askings(s.questions.items)))
  {
    hide Written, Values, Latest, TaskTexts, QuestionTexts, ReasonText, KindName, Json.SpellsReal, Askings, TaskLines;
    var state := StateOf(s, project, status, now);
    EarlyValuesAre(state);
    LateValuesAre(state);
    TaskTextsAre(s.tasks.items);
    QuestionTextsAre(s.questions.items);
    forall i: nat | i < 13 ensures Written(s, project, status, now, KEYS[i]) == Some(Values(state)[i]) {
      WrittenIs(s, project, status, now, i);
    }
    assert KEYS[6] == "recent" && KEYS[7] == "recent_kinds" && KEYS[12] == "tasks" && KEYS[5] == "questions";
  }
}
