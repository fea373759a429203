/** The state file between the updater and a pane (`ui/companion_state.py`): validation, encoding and
    the strict reader. */
module CompanionState {
  import opened Text
  import opened Pagination
  import Json

  const SCHEMA_VERSION := 2
  const MAX_STATE_BYTES: nat := 65536
  const MAX_ITEMS: nat := 8
  const MAX_TEXT: nat := 512

  datatype JoinState = Starting | Joined | Unjoined | Failed

  function JoinText(j: JoinState): string {
    match j
    case Starting => "STARTING"
    case Joined => "JOINED"
    case Unjoined => "UNJOINED"
    case Failed => "ERROR"
  }

  function ParseJoin(s: string): Option<JoinState> {
    if s == "STARTING" then Some(Starting)
    else if s == "JOINED" then Some(Joined)
    else if s == "UNJOINED" then Some(Unjoined)
    else if s == "ERROR" then Some(Failed)
    else None
  }

  /** `updatedAt` is kept as its spelling: a float is written as the shortest text that reads back as it. */
  datatype State = State(
    updatedAt: Json.RealText, project: string, source: string, status: string, join: JoinState,
    request: Option<string>, command: Option<string>, detail: Option<string>,
    recent: seq<string>, recentKinds: seq<string>, tasks: seq<string>, questions: seq<string>)

  /** `_validate_text`. */
  predicate ValidRequired(s: string) {
    Strip(s) != "" && |s| <= MAX_TEXT
  }

  predicate ValidOptional(o: Option<string>) {
    o.Some? ==> |o.value| <= MAX_TEXT
  }

  predicate ValidItems(items: seq<string>) {
    |items| <= MAX_ITEMS && forall i :: 0 <= i < |items| ==> ValidRequired(items[i])
  }

  /** `CompanionState.__post_init__`. */
  predicate Valid(s: State) {
    && ValidRequired(s.project) && ValidRequired(s.source) && ValidRequired(s.status)
    && ValidOptional(s.request) && ValidOptional(s.command) && ValidOptional(s.detail)
    && ValidItems(s.recent) && ValidItems(s.recentKinds) && ValidItems(s.tasks) && ValidItems(s.questions)
    && |s.recentKinds| == |s.recent|
  }

  // ----- Writing -----

  /** The required keys, sorted as they are written. */
  const KEYS := [
    "command_result", "detail", "join_state", "producer_updated_at", "project", "questions", "recent",
    "recent_kinds", "request", "schema_version", "source", "status", "tasks"]

  function Optional(o: Option<string>): Json.Value {
    if o.None? then Json.Null else Json.Str(o.value)
  }

  function Strings(items: seq<string>): (values: seq<Json.Value>)
    ensures |values| == |items|
  {
    seq(|items|, i requires 0 <= i < |items| => Json.Str(items[i]))
  }

  function EarlyValues(s: State): (values: seq<Json.Value>)
    ensures |values| == 6
  {
    [Optional(s.command), Optional(s.detail), Json.Str(JoinText(s.join)), Json.Real(s.updatedAt), Json.Str(s.project),
     Json.Arr(Strings(s.questions))]
  }

  function LateValues(s: State): (values: seq<Json.Value>)
    ensures |values| == 7
  {
    [Json.Arr(Strings(s.recent)), Json.Arr(Strings(s.recentKinds)), Optional(s.request), Json.Num(SCHEMA_VERSION),
     Json.Str(s.source), Json.Str(s.status), Json.Arr(Strings(s.tasks))]
  }

  function Values(s: State): (values: seq<Json.Value>)
    ensures |values| == 13
  {
    EarlyValues(s) + LateValues(s)
  }

  function Fields(s: State): (fields: seq<(string, Json.Value)>)
    ensures |fields| == 13
  {
    seq(13, i requires 0 <= i < 13 => (KEYS[i], Values(s)[i]))
  }

  function Encoded(s: State): string {
    Json.Encode(Json.Obj(Fields(s)))
  }

  /** The file as readers find it. */
  class StateFile {
    var text: Option<string>

    constructor ()
      ensures text == None
    {
      text := None;
    }

    /** `atomic_write_state`: the whole new state, or the old file untouched. */
    method AtomicWriteState(s: State) returns (ok: bool)
      modifies this
      ensures ok <==> Utf8Length(Encoded(s)) <= MAX_STATE_BYTES
      ensures text == if ok then Some(Encoded(s)) else old(text)
    {
      var encoded := Encoded(s);
      ok := Utf8Length(encoded) <= MAX_STATE_BYTES;
      if ok { text := Some(encoded); }
    }
  }

  // ----- Reading -----

  function Field(fields: seq<(string, Json.Value)>, i: nat): Option<Json.Value>
    requires i < 13
  {
    Json.Lookup(fields, KEYS[i])
  }

  predicate KeysMatch(fields: seq<(string, Json.Value)>) {
    && (forall k :: 0 <= k < |fields| ==> fields[k].0 in KEYS)
    && forall i :: 0 <= i < 13 ==> Field(fields, i).Some?
  }

  function AsText(v: Option<Json.Value>): Option<string> {
    if v.Some? && v.value.Str? then Some(v.value.s) else None
  }

  /** Text or null. */
  function AsOptional(v: Option<Json.Value>): Option<Option<string>> {
    if v == Some(Json.Null) then Some(None)
    else if v.Some? && v.value.Str? then Some(Some(v.value.s))
    else None
  }

  function TextItems(values: seq<Json.Value>): Option<seq<string>> {
    if values == [] then Some([])
    else
      var before := TextItems(values[..|values| - 1]);
      if before.None? || !values[|values| - 1].Str? then None else Some(before.value + [values[|values| - 1].s])
  }

  function AsItems(v: Option<Json.Value>): Option<seq<string>> {
    if v.Some? && v.value.Arr? then TextItems(v.value.items) else None
  }

  /** A number; an integer time is the same as the float it equals. */
  function AsTime(v: Option<Json.Value>): Option<Json.RealText> {
    if v.Some? && v.value.Real? then Some(v.value.text)
    else if v.Some? && v.value.Num? then
      Json.WholeReal(v.value.n);
      Some(Decimal(v.value.n) + ".0")
    else None
  }

  function ReadFields(f: seq<(string, Json.Value)>): Option<State> {
    var join := AsText(Field(f, 2));
    var joined := if join.None? then None else ParseJoin(join.value);
    var project, source, status := AsText(Field(f, 4)), AsText(Field(f, 10)), AsText(Field(f, 11));
    var request, command, detail := AsOptional(Field(f, 8)), AsOptional(Field(f, 0)), AsOptional(Field(f, 1));
    var recent, kinds, tasks, questions := AsItems(Field(f, 6)), AsItems(Field(f, 7)), AsItems(Field(f, 12)),
      AsItems(Field(f, 5));
    var updated, version := AsTime(Field(f, 3)), Field(f, 9);
    if version.None? || !Json.Equals(version.value, SCHEMA_VERSION) || updated.None? || joined.None? then None
    else if project.None? || source.None? || status.None? || request.None? || command.None? || detail.None? then None
    else if recent.None? || kinds.None? || tasks.None? || questions.None? then None
    else
      Some(State(updated.value, project.value, source.value, status.value, joined.value, request.value, command.value,
                 detail.value, recent.value, kinds.value, tasks.value, questions.value))
  }

  /** `read_state`. */
  function ReadState(text: string): Option<State> {
    if Utf8Length(text) > MAX_STATE_BYTES then None
    else
      var payload := Json.Decode(text);
      if payload.None? || !payload.value.Obj? || !KeysMatch(payload.value.fields) then None
      else
        var state := ReadFields(payload.value.fields);
        if state.None? || !Valid(state.value) then None else state
  }

  // ----- What is written reads back -----

  lemma {:induction false} LookupAt(fields: seq<(string, Json.Value)>, i: nat)
    requires i < |fields| && forall j :: i < j < |fields| ==> fields[j].0 != fields[i].0
    ensures Json.Lookup(fields, fields[i].0) == Some(fields[i].1)
  {
    var n := |fields| - 1;
    if i < n {
      assert fields[n].0 != fields[i].0;
      assert fields[..n][i] == fields[i];
      LookupAt(fields[..n], i);
    }
  }

  /** Enough of a key to tell it from the others: its length and first two characters. */
  function Mark(key: string): int {
    if |key| < 2 then 0 else |key| * 1000000 + key[0] as int * 1000 + key[1] as int
  }

  const MARKS :=
    [14099111, 6100101, 10106111, 19112114, 7112114, 9113117, 6114101, 12114101, 7114101, 14115099, 6115111, 6115116,
     5116097]

  lemma KeyMarks(i: nat)
    requires i < 13
    ensures Mark(KEYS[i]) == MARKS[i]
  {
    assert |"command_result"| == 14 && |"detail"| == 6 && |"join_state"| == 10 && |"producer_updated_at"| == 19;
    assert |"project"| == 7 && |"questions"| == 9 && |"recent"| == 6 && |"recent_kinds"| == 12 && |"request"| == 7;
    assert |"schema_version"| == 14 && |"source"| == 6 && |"status"| == 6 && |"tasks"| == 5;
  }

  lemma KeysDiffer(i: nat, j: nat)
    requires i < j < 13
    ensures KEYS[i] != KEYS[j]
  {
    KeyMarks(i);
    KeyMarks(j);
    assert MARKS[i] != MARKS[j];
  }

  lemma FieldIsValue(s: State, i: nat)
    requires i < 13
    ensures Field(Fields(s), i) == Some(Values(s)[i])
  {
    hide Json.Lookup;
    var f := Fields(s);
    forall j | i < j < 13 ensures f[j].0 != f[i].0 { KeysDiffer(i, j); }
    LookupAt(f, i);
  }

  lemma {:induction false} ItemsRead(items: seq<string>)
    ensures TextItems(Strings(items)) == Some(items)
  {
    if items != [] {
      var init := items[..|items| - 1];
      ItemsRead(init);
      assert Strings(items)[..|items| - 1] == Strings(init);
      assert init + [items[|items| - 1]] == items;
    } else {
      assert Strings(items) == [];
    }
  }

  lemma JoinReads(j: JoinState)
    ensures ParseJoin(JoinText(j)) == Some(j)
  {
    assert "JOINED"[0] != "STARTING"[0] && "UNJOINED"[0] != "STARTING"[0] && "UNJOINED"[0] != "JOINED"[0];
    assert "ERROR"[0] != "STARTING"[0] && "ERROR"[0] != "JOINED"[0] && "ERROR"[0] != "UNJOINED"[0];
  }

  lemma FieldsRead(s: State)
    ensures ReadFields(Fields(s)) == Some(s) && KeysMatch(Fields(s))
  {
    hide Field, Values, Fields, TextItems, Strings, ParseJoin, JoinText, Json.SpellsReal, Json.RealValue;
    EarlyValuesAre(s);
    LateValuesAre(s);
    forall i: nat | i < 13 ensures Field(Fields(s), i) == Some(Values(s)[i]) { FieldIsValue(s, i); }
    JoinReads(s.join);
    ItemsRead(s.questions);
    ItemsRead(s.recent);
    ItemsRead(s.recentKinds);
    ItemsRead(s.tasks);
    FieldKeys(s);
  }

  lemma FieldKeys(s: State)
    ensures forall k :: 0 <= k < 13 ==> Fields(s)[k].0 in KEYS
  {
    forall k | 0 <= k < 13 ensures Fields(s)[k].0 in KEYS { assert Fields(s)[k].0 == KEYS[k]; }
  }

  lemma EarlyValuesAre(s: State)
    ensures var v := Values(s);
            && v[0] == Optional(s.command) && v[1] == Optional(s.detail) && v[2] == Json.Str(JoinText(s.join))
            && v[3] == Json.Real(s.updatedAt) && v[4] == Json.Str(s.project) && v[5] == Json.Arr(Strings(s.questions))
  {
    hide LateValues, Optional, JoinText, Strings, Json.SpellsReal, Json.RealLength;
    var v := EarlyValues(s);
    assert Values(s)[..6] == v;
    assert v[0] == Optional(s.command) && v[1] == Optional(s.detail) && v[2] == Json.Str(JoinText(s.join));
  }

  lemma LateValuesAre(s: State)
    ensures var v := Values(s);
            && v[6] == Json.Arr(Strings(s.recent)) && v[7] == Json.Arr(Strings(s.recentKinds))
            && v[8] == Optional(s.request) && v[9] == Json.Num(SCHEMA_VERSION)
            && v[10] == Json.Str(s.source) && v[11] == Json.Str(s.status) && v[12] == Json.Arr(Strings(s.tasks))
  {
    hide EarlyValues, Optional, Strings, Json.SpellsReal, Json.RealLength;
    var v := LateValues(s);
    assert Values(s)[6..] == v;
    assert v[0] == Json.Arr(Strings(s.recent)) && v[1] == Json.Arr(Strings(s.recentKinds));
  }

  /** Whatever a valid state holds, a reader gets exactly it back, provided its text fits the file; and
      a reader never accepts a state that is not valid. */
  lemma StateRoundTrip(s: State)
    ensures Utf8Length(Encoded(s)) <= MAX_STATE_BYTES ==> ReadState(Encoded(s)) == if Valid(s) then Some(s) else None
    ensures Utf8Length(Encoded(s)) > MAX_STATE_BYTES ==> ReadState(Encoded(s)) == None
  {
    hide Json.Encode, Json.Decode, Utf8Length, Valid, KeysMatch, ReadFields, Fields;
    Json.RoundTrip(Json.Obj(Fields(s)));
    FieldsRead(s);
  }
}
