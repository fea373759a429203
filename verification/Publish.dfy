/** What the updater publishes of a snapshot (`ui/companion_update.py`, `summary/model.py`): every
    state it builds from a bounded snapshot is valid, fits the file and reads back equal. */
module Publish {
  import opened Text
  import opened SummaryModel
  import opened SnapshotBounds
  import opened CompanionState
  import opened Pagination
  import Claude = ClaudeReducer
  import Codex = CodexReducer
  import Json
  import ReducerLoop
  import Tail
  import TurnBoundary
  import opened SummaryUpdater
  import opened UpdaterRuns
  import SnapshotSources

  /** The evidence kinds as the source writes them. */
  function KindName(kind: Kind): string {
    match kind
    case EventStream => "event_stream"
    case HumanMessage => "human_message"
    case AgentMessage => "agent_message"
    case ToolUse => "tool_use"
    case ToolResult => "tool_result"
    case ToolError => "tool_error"
    case TodoWrite => "TodoWrite"
    case AskUserQuestion => "AskUserQuestion"
    case AssistantFinal => "assistant_final"
    case BackgroundTask => "background_task"
    case Compacted => "compaction"
    case FunctionCall => "function_call"
    case FunctionCallOutput => "function_call_output"
    case UpdatePlan => "update_plan"
    case RequestUserInput => "request_user_input"
    case TurnBoundary => "turn_boundary"
    case SourceError => "error"
    case ExecCommandEnd => "exec_command_end"
    case PatchApplyEnd => "patch_apply_end"
    case Unrecognized => "unknown"
    case Question => "question"
  }

  function ReasonText(r: Reason): string {
    match r
    case NoHumanRequest => "no genuine human request"
    case NoPlan => "no structured plan snapshot"
    case NoCommandFailure => "no command failure this turn"
    case NoCompaction => "no compaction observed"
    case NoTurnBoundary => "turn boundary not observed"
    case NoDisplayableText(kind) => KindName(kind) + " carried no displayable text"
    case PlanUnsupported(kind) => KindName(kind) + " structure is unsupported"
    case PlanTooLong(kind) => KindName(kind) + " exceeds bounded task limit"
    case PlanItemUnsupported(kind) => KindName(kind) + " item is unsupported"
    case PlanItemIncomplete(kind) => KindName(kind) + " item lacks text or status"
    case QuestionsUnsupported(kind) => KindName(kind) + " structure is unsupported"
    case ClaudePayload => "Claude event payload is unsupported"
    case ClaudeToolName => "Claude tool call has no supported name"
    case ClaudeBackgroundTasks => "too many active Claude background tasks"
    case CodexPayload => "Codex event payload is unsupported"
    case CodexToolName => "Codex tool call has no supported name"
    case CodexUnsupportedEvent => "unsupported Codex event"
    case Malformed(records) => Decimal(records) + " malformed complete record(s)"
    case UnsupportedSource(source) => "unsupported summary source: " + source
    case UnknownSource => "unknown source"
  }

  // ----- The one activity worth showing -----

  predicate HighSignal(kind: Kind) {
    kind == AgentMessage || kind == ToolError || kind == SourceError || kind == ExecCommandEnd ||
    kind == PatchApplyEnd || kind == Compacted || kind == TurnBoundary
  }

  /** `questions_by_evidence.get(id)`: the last open claim with this evidence and a text. */
  function QuestionFor(claims: seq<Claim>, id: Option<string>): Option<string> {
    if claims == [] || id.None? then None
    else
      var last := claims[|claims| - 1];
      if last.id == id && last.text.Some? && last.text.value != "" then last.text
      else QuestionFor(claims[..|claims| - 1], id)
  }

  /** What one recent item would show, if anything. */
  function Candidate(claims: seq<Claim>, item: Activity): Option<Activity> {
    var question := QuestionFor(claims, item.id);
    if question.Some? then Some(Activity("Question: " + question.value, item.provenance, Question, item.id))
    else if HighSignal(item.kind) then Some(item)
    else None
  }

  function Latest(claims: seq<Claim>, recent: seq<Activity>): Option<Activity> {
    if recent == [] then None
    else
      var candidate := Candidate(claims, recent[|recent| - 1]);
      if candidate.Some? then candidate else Latest(claims, recent[..|recent| - 1])
  }

  /** `latest_high_signal_activity`: the dictionary of open questions, then the newest item first. */
  method LatestHighSignalActivity(s: Snapshot) returns (shown: seq<Activity>)
    ensures shown == if Latest(s.questions.items, s.recent).Some? then [Latest(s.questions.items, s.recent).value]
            else []
  {
    var byEvidence: map<string, string> := map[];
    var claims := s.questions.items;
    for i := 0 to |claims|
      invariant forall id :: id in byEvidence <==> QuestionFor(claims[..i], Some(id)).Some?
      invariant forall id :: id in byEvidence ==> QuestionFor(claims[..i], Some(id)) == Some(byEvidence[id])
    {
      assert claims[..i + 1][..i] == claims[..i];
      var c := claims[i];
      if c.id.Some? && c.text.Some? && c.text.value != "" {
        byEvidence := byEvidence[c.id.value := c.text.value];
      }
    }
    assert claims[..|claims|] == claims;
    var n := |s.recent|;
    assert s.recent[..n] == s.recent;
    while n > 0
      invariant 0 <= n <= |s.recent| && Latest(claims, s.recent) == Latest(claims, s.recent[..n])
    {
      var item := s.recent[n - 1];
      assert s.recent[..n][..n - 1] == s.recent[..n - 1];
      if item.id.Some? && item.id.value in byEvidence {
        return [Activity("Question: " + byEvidence[item.id.value], item.provenance, Question, item.id)];
      }
      if HighSignal(item.kind) { return [item]; }
      n := n - 1;
    }
    return [];
  }

  lemma {:induction false} QuestionForSource(claims: seq<Claim>, id: Option<string>)
    requires ClaimsShort(claims) && QuestionFor(claims, id).Some?
    ensures Displayable(QuestionFor(claims, id).value, DISPLAY_TEXT_LIMIT)
  {
    var n := |claims| - 1;
    if !(claims[n].id == id && claims[n].text.Some? && claims[n].text.value != "") {
      QuestionForSource(claims[..n], id);
    }
  }

  lemma {:induction false} LatestShort(claims: seq<Claim>, recent: seq<Activity>)
    requires ClaimsShort(claims) && (forall i :: 0 <= i < |recent| ==> ActivityShort(recent[i]))
             && Latest(claims, recent).Some?
    ensures Displayable(Latest(claims, recent).value.text, FOLDED_TEXT_LIMIT)
  {
    hide QuestionFor;
    var n := |recent| - 1;
    if Candidate(claims, recent[n]).Some? {
      if QuestionFor(claims, recent[n].id).Some? { QuestionForSource(claims, recent[n].id); }
    } else {
      LatestShort(claims, recent[..n]);
    }
  }

  // ----- The state -----

  function TaskTexts(items: seq<TaskItem>): (texts: seq<string>)
    ensures |texts| == |items|
  {
    seq(|items|, i requires 0 <= i < |items| => items[i].status + ": " + items[i].text)
  }

  function QuestionTexts(claims: seq<Claim>): seq<string> {
    if claims == [] then []
    else
      var last := claims[|claims| - 1];
      QuestionTexts(claims[..|claims| - 1]) + if last.text.Some? && last.text.value != "" then [last.text.value] else []
  }

  /** `_state`, before its constructor validates it. */
  function StateOf(s: Snapshot, project: string, status: string, now: Json.RealText): State {
    var latest := Latest(s.questions.items, s.recent);
    State(now, project, s.source, status, Joined, s.request.text, s.command.text,
          if s.reasons != [] then Some(ReasonText(s.reasons[|s.reasons| - 1])) else None,
          if latest.Some? then [latest.value.text] else [], if latest.Some? then [KindName(latest.value.kind)] else [],
          LastOf(TaskTexts(s.tasks.items), CompanionState.MAX_ITEMS),
            LastOf(QuestionTexts(s.questions.items), CompanionState.MAX_ITEMS))
  }

  lemma DisplayableValid(s: string, limit: nat)
    requires Displayable(s, limit) && limit <= MAX_TEXT
    ensures ValidRequired(s)
  {
    NotBlank(s);
  }

  lemma KindNameShort(kind: Kind)
    ensures Displayable(KindName(kind), 20)
  {
  }

  predicate AllDisplayable(items: seq<string>, limit: nat) {
    forall i :: 0 <= i < |items| ==> Displayable(items[i], limit)
  }

  lemma {:induction false} QuestionTextsShort(claims: seq<Claim>)
    requires ClaimsShort(claims)
    ensures AllDisplayable(QuestionTexts(claims), DISPLAY_TEXT_LIMIT)
  {
    if claims != [] { QuestionTextsShort(claims[..|claims| - 1]); }
  }

  lemma TaskTextsShort(tasks: Collection<TaskItem>)
    requires TasksShort(tasks)
    ensures AllDisplayable(TaskTexts(tasks.items), FOLDED_TEXT_LIMIT)
  {
  }

  lemma LastOfDisplayable(items: seq<string>, limit: nat)
    requires AllDisplayable(items, limit)
    ensures AllDisplayable(LastOf(items, CompanionState.MAX_ITEMS), limit)
  {
    var last := LastOf(items, CompanionState.MAX_ITEMS);
    forall i | 0 <= i < |last| ensures Displayable(last[i], limit) {
      assert last[i] in items;
    }
  }

  lemma DisplayableItems(items: seq<string>, limit: nat)
    requires AllDisplayable(items, limit) && |items| <= CompanionState.MAX_ITEMS && limit <= MAX_TEXT
    ensures ValidItems(items)
  {
    forall i | 0 <= i < |items| ensures ValidRequired(items[i]) { DisplayableValid(items[i], limit); }
  }

  /** The lists and texts a bounded snapshot contributes. */
  predicate PartsShort(state: State) {
    && |state.recent| <= 1 && |state.recentKinds| == |state.recent|
    && AllDisplayable(state.recent, FOLDED_TEXT_LIMIT) && AllDisplayable(state.recentKinds, 20)
    && |state.tasks| <= CompanionState.MAX_ITEMS && AllDisplayable(state.tasks, FOLDED_TEXT_LIMIT)
    && |state.questions| <= CompanionState.MAX_ITEMS && AllDisplayable(state.questions, DISPLAY_TEXT_LIMIT)
    && (state.request.Some? ==> |state.request.value| <= DISPLAY_TEXT_LIMIT)
    && (state.command.Some? ==> |state.command.value| <= DISPLAY_TEXT_LIMIT)
  }

  lemma StatePartsShort(s: Snapshot, project: string, status: string, now: Json.RealText)
    requires Short(s)
    ensures PartsShort(StateOf(s, project, status, now))
  {
    hide Latest, KindName, ReasonText, TaskTexts, QuestionTexts, LastOf;
    var latest := Latest(s.questions.items, s.recent);
    if latest.Some? {
      LatestShort(s.questions.items, s.recent);
      KindNameShort(latest.value.kind);
    }
    TaskTextsShort(s.tasks);
    LastOfDisplayable(TaskTexts(s.tasks.items), FOLDED_TEXT_LIMIT);
    QuestionTextsShort(s.questions.items);
    LastOfDisplayable(QuestionTexts(s.questions.items), DISPLAY_TEXT_LIMIT);
  }

  /** What a published state can be refused for: its names, or the text of the newest diagnostic. */
  predicate Publishable(s: Snapshot, project: string, status: string) {
    && ValidRequired(project) && ValidRequired(s.source) && ValidRequired(status)
    && (s.reasons != [] ==> |ReasonText(s.reasons[|s.reasons| - 1])| <= MAX_TEXT)
  }

  /** Of a bounded snapshot, the state is valid exactly when its names are and the diagnostic fits. */
  lemma StateValidExactly(s: Snapshot, project: string, status: string, now: Json.RealText)
    requires Short(s)
    ensures Valid(StateOf(s, project, status, now)) <==> Publishable(s, project, status)
  {
    hide Latest, KindName, ReasonText, TaskTexts, QuestionTexts, LastOf, ValidRequired;
    StatePartsShort(s, project, status, now);
    var state := StateOf(s, project, status, now);
    DisplayableItems(state.recent, FOLDED_TEXT_LIMIT);
    DisplayableItems(state.recentKinds, 20);
    DisplayableItems(state.tasks, FOLDED_TEXT_LIMIT);
    DisplayableItems(state.questions, DISPLAY_TEXT_LIMIT);
  }

  /** The longest count of malformed lines that a diagnostic can spell out, in digits. */
  const COUNT_DIGITS: nat := 483

  /** Exactly which diagnostics fit: all but a foreign source's overlong name and an absurd count. */
  lemma DiagnosticFits(r: Reason)
    ensures |ReasonText(r)| <= MAX_TEXT <==>
            (r.Malformed? ==> |Decimal(r.records)| <= COUNT_DIGITS) && (r.UnsupportedSource? ==> |r.source| <= 484)
  {
    hide Decimal, KindName;
    if r.NoDisplayableText? || r.PlanUnsupported? || r.PlanTooLong? || r.PlanItemUnsupported? || r.PlanItemIncomplete?
       || r.QuestionsUnsupported? {
      KindNameShort(r.kind);
    }
  }

  // ----- The encoded size -----

  lemma EscapeCharLength(c: char)
    ensures Utf8Length(Json.EscapeChar(c)) <= 6
  {
    hide Json.EscapeChar;
    EscapeCharShort(c);
    if |Json.EscapeChar(c)| == 1 {
      assert Json.EscapeChar(c)[1..] == "";
    } else {
      AsciiLength(Json.EscapeChar(c));
    }
  }

  lemma EscapeCharShort(c: char)
    ensures 1 <= |Json.EscapeChar(c)| <= 6
    ensures |Json.EscapeChar(c)| > 1 ==> forall i :: 0 <= i < |Json.EscapeChar(c)| ==>
              Json.EscapeChar(c)[i] as int < 0x80
  {
  }

  lemma {:induction false} AsciiLength(s: string)
    requires forall i :: 0 <= i < |s| ==> s[i] as int < 0x80
    ensures Utf8Length(s) == |s|
  {
    if s != "" { AsciiLength(s[1..]); }
  }

  lemma {:induction false} EscapedAtMostSix(s: string)
    ensures Utf8Length(Json.Escape(s)) <= 6 * |s|
  {
    hide Json.EscapeChar;
    if s != "" {
      EscapedAtMostSix(s[1..]);
      EscapeCharLength(s[0]);
      Utf8Adds(Json.EscapeChar(s[0]), Json.Escape(s[1..]));
    }
  }

  function Length(v: Json.Value): nat {
    Utf8Length(Json.Encode(v))
  }

  lemma TextLength(s: string)
    ensures Length(Json.Str(s)) <= 6 * |s| + 2 && Utf8Length(Json.Quote(s)) <= 6 * |s| + 2
  {
    hide Json.Escape;
    EscapedAtMostSix(s);
    Utf8Adds("\"", Json.Escape(s));
    Utf8Adds("\"" + Json.Escape(s), "\"");
    assert Utf8Length("\"") == 1;
  }

  lemma OptionalLength(o: Option<string>, limit: nat)
    requires o.Some? ==> |o.value| <= limit
    ensures Length(Optional(o)) <= 6 * limit + 4
  {
    if o.Some? {
      TextLength(o.value);
    } else {
      AsciiLength("null");
    }
  }

  lemma {:induction false} ItemsLength(items: seq<string>, limit: nat)
    requires forall i :: 0 <= i < |items| ==> |items[i]| <= limit
    ensures Utf8Length(Json.EncodeItems(Strings(items))) <= |items| * (6 * limit + 3)
  {
    hide Json.Encode, Utf8Length;
    if items == [] {
      NothingEncodes();
    } else {
      var init, last := items[..|items| - 1], items[|items| - 1];
      ItemsLength(init, limit);
      assert Strings(items) == Strings(init) + [Json.Str(last)];
      EncodeItemsAppend(Strings(init), Json.Str(last));
      TextLength(last);
      var comma := if Strings(init) == [] then "" else ",";
      CommaLength();
      Utf8Adds(Json.EncodeItems(Strings(init)) + comma, Json.Encode(Json.Str(last)));
      Utf8Adds(Json.EncodeItems(Strings(init)), comma);
      assert |items| * (6 * limit + 3) == |init| * (6 * limit + 3) + (6 * limit + 3);
    }
  }

  lemma NothingEncodes()
    ensures Strings([]) == [] && Json.EncodeItems([]) == "" && Utf8Length("") == 0
  {
  }

  lemma CommaLength()
    ensures Utf8Length(",") == 1 && Utf8Length("") == 0 && Utf8Length(":") == 1
    ensures Utf8Length("[") == 1 && Utf8Length("]") == 1 && Utf8Length("{") == 1 && Utf8Length("}") == 1
  {
  }

  lemma ListLength(items: seq<string>, count: nat, limit: nat)
    requires |items| <= count && forall i :: 0 <= i < |items| ==> |items[i]| <= limit
    ensures Length(Json.Arr(Strings(items))) <= count * (6 * limit + 3) + 2
  {
    hide Utf8Length, Json.EncodeItems;
    ItemsLength(items, limit);
    CommaLength();
    var body := Json.EncodeItems(Strings(items));
    assert Json.Encode(Json.Arr(Strings(items))) == "[" + body + "]";
    Utf8Adds("[" + body, "]");
    Utf8Adds("[", body);
    assert |items| * (6 * limit + 3) <= count * (6 * limit + 3);
  }

  /** An upper bound on the encoding of the last fields of an object, field by field. */
  function FieldsCost(fields: seq<(string, Json.Value)>): nat {
    if fields == [] then 0
    else FieldsCost(fields[..|fields| - 1]) + 6 * |fields[|fields| - 1].0| + 4 + Length(fields[|fields| - 1].1)
  }

  lemma {:induction false} EncodeFieldsAppend(fields: seq<(string, Json.Value)>, last: (string, Json.Value))
    ensures Json.EncodeFields(fields + [last]) == Json.EncodeFields(fields) + (if fields == [] then "" else ",")
            + Json.EncodeField(last)
  {
    hide Json.EncodeField;
    if fields == [] {
      assert fields + [last] == [last];
    } else {
      assert (fields + [last])[1..] == fields[1..] + [last];
      EncodeFieldsAppend(fields[1..], last);
      if |fields| == 1 { assert fields[1..] == []; }
    }
  }

  lemma {:induction false} FieldsWithin(fields: seq<(string, Json.Value)>)
    ensures Utf8Length(Json.EncodeFields(fields)) <= FieldsCost(fields)
  {
    hide Json.Encode, Utf8Length, Json.Quote;
    CommaLength();
    if fields == [] {
      NoFieldsEncode();
    } else {
      var init, last := fields[..|fields| - 1], fields[|fields| - 1];
      FieldsWithin(init);
      assert init + [last] == fields;
      EncodeFieldsAppend(init, last);
      var comma := if init == [] then "" else ",";
      Utf8Adds(Json.EncodeFields(init) + comma, Json.EncodeField(last));
      Utf8Adds(Json.EncodeFields(init), comma);
      FieldIs(last.0, last.1);
      Utf8Adds(Json.Quote(last.0) + ":", Json.Encode(last.1));
      Utf8Adds(Json.Quote(last.0), ":");
      TextLength(last.0);
    }
  }

  lemma NoFieldsEncode()
    ensures Json.EncodeFields([]) == ""
  {
  }

  /** The cost of the first `n` of a state's fields. */
  function CostUpTo(s: State, n: nat): nat
    requires n <= 13
  {
    if n == 0 then 0 else CostUpTo(s, n - 1) + 6 * |KEYS[n - 1]| + 4 + Length(Values(s)[n - 1])
  }

  lemma {:induction false} FieldsCostUpTo(s: State, n: nat)
    requires n <= 13
    ensures FieldsCost(Fields(s)[..n]) == CostUpTo(s, n)
  {
    hide Length, Values;
    if n > 0 {
      FieldsCostUpTo(s, n - 1);
      assert Fields(s)[..n][..n - 1] == Fields(s)[..n - 1];
      assert Fields(s)[..n][n - 1] == (KEYS[n - 1], Values(s)[n - 1]);
    }
  }

  /** How many bytes each value of a published state takes at most. */
  const BUDGET := [1444, 3076, 62, 32, 3074, 11546, 2897, 125, 1444, 1, 3074, 3074, 23162]

  function BudgetUpTo(n: nat): nat
    requires n <= 13
  {
    if n == 0 then 0 else BudgetUpTo(n - 1) + 6 * 19 + 4 + BUDGET[n - 1]
  }

  lemma KeysShort(i: nat)
    requires i < 13
    ensures |KEYS[i]| <= 19
  {
    KeyMarks(i);
  }

  lemma {:induction false} WithinBudget(s: State, n: nat)
    requires n <= 13 && forall i :: 0 <= i < 13 ==> Length(Values(s)[i]) <= BUDGET[i]
    ensures CostUpTo(s, n) <= BudgetUpTo(n)
  {
    hide Length, Values;
    if n > 0 {
      WithinBudget(s, n - 1);
      KeysShort(n - 1);
    }
  }

  lemma BudgetTotal()
    ensures BudgetUpTo(13) == 54545
  {
    assert BudgetUpTo(4) == 5086;
    assert BudgetUpTo(8) == 23200;
    assert BudgetUpTo(11) == 28073;
  }

  lemma EarlyLengths(state: State)
    requires PartsShort(state) && Valid(state) && |state.updatedAt| <= 32
    ensures forall i :: 0 <= i < 6 ==> Length(Values(state)[i]) <= BUDGET[i]
  {
    hide Length, Optional, Strings, ValidRequired, Values, Json.SpellsReal;
    EarlyValuesAre(state);
    OptionalLength(state.command, DISPLAY_TEXT_LIMIT);
    OptionalLength(state.detail, MAX_TEXT);
    TextLength(JoinText(state.join));
    JoinShort(state.join);
    StampLength(state.updatedAt);
    NamesShort(state);
    TextLength(state.project);
    ListLength(state.questions, CompanionState.MAX_ITEMS, DISPLAY_TEXT_LIMIT);
  }

  lemma LateLengths(state: State)
    requires PartsShort(state) && Valid(state)
    ensures forall i :: 6 <= i < 13 ==> Length(Values(state)[i]) <= BUDGET[i]
  {
    hide Length, Optional, Strings, Decimal, ValidRequired, Values, Json.SpellsReal;
    LateValuesAre(state);
    NumLength(SCHEMA_VERSION);
    OneDigit();
    NamesShort(state);
    TextLength(state.source);
    TextLength(state.status);
    ListLength(state.recent, 1, FOLDED_TEXT_LIMIT);
    ListLength(state.recentKinds, 1, 20);
    OptionalLength(state.request, DISPLAY_TEXT_LIMIT);
    ListLength(state.tasks, CompanionState.MAX_ITEMS, FOLDED_TEXT_LIMIT);
  }

  lemma JoinShort(j: JoinState)
    ensures |JoinText(j)| <= 8
  {
  }

  lemma OneDigit()
    ensures |Decimal(SCHEMA_VERSION)| == 1
  {
  }

  lemma NamesShort(s: State)
    requires Valid(s)
    ensures |s.project| <= MAX_TEXT && |s.source| <= MAX_TEXT && |s.status| <= MAX_TEXT
  {
  }

  lemma {:induction false} DecimalAsciiOnly(n: int)
    ensures forall i :: 0 <= i < |Decimal(n)| ==> Decimal(n)[i] as int < 0x80
    decreases n < 0, if n < 0 then -n else n
  {
    if n < 0 { DecimalAsciiOnly(-n); } else if n >= 10 { DecimalAsciiOnly(n / 10); }
  }

  lemma StampLength(text: Json.RealText)
    ensures Length(Json.Real(text)) == |text|
  {
    Json.RealIsAscii(text);
    AsciiLength(text);
  }

  lemma NumLength(n: int)
    ensures Length(Json.Num(n)) == |Decimal(n)|
  {
    hide Decimal;
    DecimalAsciiOnly(n);
    AsciiLength(Decimal(n));
  }

  /** Every state built from a bounded snapshot under valid names is written, and a reader gets exactly
      it back. */
  lemma PublishedReadsBack(s: Snapshot, project: string, status: string, now: Json.RealText)
    requires Short(s) && Publishable(s, project, status) && |now| <= 32
    ensures var state := StateOf(s, project, status, now);
            Valid(state) && Utf8Length(Encoded(state)) <= MAX_STATE_BYTES && ReadState(Encoded(state)) == Some(state)
  {
    hide StateOf, Publishable, Encoded, ReadState, Decimal, Valid;
    var state := StateOf(s, project, status, now);
    StatePartsShort(s, project, status, now);
    StateValidExactly(s, project, status, now);
    StampIs(s, project, status, now);
    EncodedFits(state);
    StateRoundTrip(state);
  }

  lemma StampIs(s: Snapshot, project: string, status: string, now: Json.RealText)
    ensures StateOf(s, project, status, now).updatedAt == now
  {
  }

  lemma EncodedFits(state: State)
    requires PartsShort(state) && Valid(state) && |state.updatedAt| <= 32
    ensures Utf8Length(Encoded(state)) <= MAX_STATE_BYTES
  {
    hide Utf8Length, Json.EncodeFields, Fields, FieldsCost, CostUpTo, BudgetUpTo, Decimal, Valid, PartsShort;
    EarlyLengths(state);
    LateLengths(state);
    WithinBudget(state, 13);
    BudgetTotal();
    FieldsCostUpTo(state, 13);
    assert Fields(state)[..13] == Fields(state);
    FieldsWithin(Fields(state));
    CommaLength();
    var body := Json.EncodeFields(Fields(state));
    assert Encoded(state) == "{" + body + "}";
    Utf8Adds("{" + body, "}");
    Utf8Adds("{", body);
  }

  /** What the updater shows can be published exactly while its count of malformed lines can be spelled
      out; then it is written within the limit and reads back equal. */
  ghost predicate Publishes(r: Runtime, project: string, status: string, now: Json.RealText) {
    var state := StateOf(View(r), project, status, now);
    && (Valid(state) <==> |Decimal(r.malformed)| <= COUNT_DIGITS)
    && (Valid(state) ==> Utf8Length(Encoded(state)) <= MAX_STATE_BYTES && ReadState(Encoded(state)) == Some(state))
  }

  /** For every run of file contents, of either source and under any valid names, the updater's state
      is published and reads back equal, unless the malformed lines are past counting. */
  lemma EveryTickPublishes(key: string, files: seq<seq<byte>>, claude: Tail.Decoder<Claude.ClaudeEvent>,
                           codex: Tail.Decoder<Codex.CodexEvent>, project: string, status: string, now: Json.RealText)
    requires ValidRequired(project) && ValidRequired(status) && |now| <= 32
    ensures Publishes(Observed(files, claude, ClaudeReduction(key)), project, status, now)
    ensures Publishes(Observed(files, codex, CodexReduction(key)), project, status, now)
  {
    hide Decimal, Publishes, Short, View, ValidRequired, Observed, SnapshotSources.From;
    ObservedShort(key, files, claude, codex);
    SnapshotSources.ObservedFrom(key, files, claude, codex);
    SourceNamesValid();
    ShownPublishes(Observed(files, claude, ClaudeReduction(key)), Claude.SOURCE, project, status, now);
    ShownPublishes(Observed(files, codex, CodexReduction(key)), Codex.SOURCE, project, status, now);
  }

  lemma SourceNamesValid()
    ensures ValidRequired(Claude.SOURCE) && ValidRequired(Codex.SOURCE)
  {
    DisplayableValid(Claude.SOURCE, MAX_TEXT);
    DisplayableValid(Codex.SOURCE, MAX_TEXT);
  }

  lemma ShownPublishes(r: Runtime, source: string, project: string, status: string, now: Json.RealText)
    requires Short(View(r)) && SnapshotSources.From(r.current, source)
    requires ValidRequired(source) && ValidRequired(project) && ValidRequired(status) && |now| <= 32
    ensures Publishes(r, project, status, now)
  {
    hide Decimal, StateOf, Encoded, ReadState, Short, Valid, ReasonText, ValidRequired;
    var s := View(r);
    NewestDiagnostic(r, source);
    StateValidExactly(s, project, status, now);
    if Publishable(s, project, status) { PublishedReadsBack(s, project, status, now); }
  }

  /** The newest diagnostic is the malformed count if there is one, and else one of the reducer's own. */
  lemma NewestDiagnostic(r: Runtime, source: string)
    requires SnapshotSources.From(r.current, source)
    ensures View(r).source == source
    ensures (View(r).reasons != [] ==> |ReasonText(View(r).reasons[|View(r).reasons| - 1])| <= MAX_TEXT)
            <==> |Decimal(r.malformed)| <= COUNT_DIGITS
  {
    hide Decimal, ReasonText;
    var reasons := View(r).reasons;
    if reasons != [] { DiagnosticFits(reasons[|reasons| - 1]); }
    if r.malformed == 0 { ZeroIsShort(); }
  }

  lemma ZeroIsShort()
    ensures |Decimal(0)| == 1
  {
  }

  // ----- The status signals -----

  predicate TurnIsOver(text: string) {
    text == TURN_RETURNED || text == TURN_ABORTED || text == TURN_AWAITING
  }

  /** `signals_from_snapshot`. */
  function SignalsOf(s: Snapshot): TurnBoundary.Signals {
    var parsed := if s.integrity == Unknown then TurnBoundary.False else TurnBoundary.True;
    var ended :=
      if s.background != {} then TurnBoundary.False
      else if s.turn.provenance == Unknown || s.turn.text.None? then TurnBoundary.Unknown
      else if TurnIsOver(s.turn.text.value) then TurnBoundary.True
      else if s.turn.text.value == TURN_OPEN then TurnBoundary.False
      else TurnBoundary.Unknown;
    var error :=
      if s.command.provenance == Unknown then TurnBoundary.Unknown
      else if s.command.text.GetOr("") != "" then TurnBoundary.True
      else TurnBoundary.False;
    TurnBoundary.Signals(TurnBoundary.True, parsed, error, ended)
  }

  /** Whatever either reducer folds, a result whose source integrity is lost reports unparsed records,
      no ended turn and no settled command outcome. */
  lemma UntrustedFailsClosed(key: string, xs: seq<Claude.ClaudeEvent>, ys: seq<Codex.CodexEvent>,
                             initial: Option<Snapshot>)
    ensures FailsClosed(Claude.Reduce(key, xs, initial)) && FailsClosed(Codex.Reduce(key, ys, initial))
  {
    hide Claude.Fold, Codex.Fold, AppendReason;
  }

  /** What an untrusted snapshot may say. */
  predicate FailsClosed(s: Snapshot) {
    s.integrity == Unknown ==>
      SignalsOf(s) == TurnBoundary.Signals(TurnBoundary.True, TurnBoundary.False, TurnBoundary.Unknown,
                                           if s.background != {} then TurnBoundary.False else TurnBoundary.Unknown)
  }
}
