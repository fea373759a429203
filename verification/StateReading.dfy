/** What the strict reader of the state file accepts (`ui/companion_state.py`): a text within the limit
    that holds exactly the required keys, each with a value of its type and size. */
module StateReading {
  import opened Text
  import opened Pagination
  import opened CompanionState
  import opened PublishedFields
  import Json

  /** The keys a state has, and no others. */
  predicate Required(key: string) {
    key in {
      "schema_version", "producer_updated_at", "project", "source", "status", "join_state", "request",
      "command_result", "detail", "recent", "recent_kinds", "tasks", "questions"}
  }

  lemma {:induction false} TextItemsAre(values: seq<Json.Value>)
    requires TextItems(values).Some?
    ensures ListsTexts(Json.Arr(values), TextItems(values).value)
  {
    if values != [] {
      TextItemsAre(values[..|values| - 1]);
      assert forall i :: 0 <= i < |values| - 1 ==> values[..|values| - 1][i] == values[i];
    }
  }

  /** Not blank and at most 512 characters. */
  predicate Name(s: string) {
    Strip(s) != "" && |s| <= 512
  }

  /** At most eight such texts. */
  predicate Short(items: seq<string>) {
    |items| <= 8 && forall i :: 0 <= i < |items| ==> Name(items[i])
  }

  predicate Fitting(s: State) {
    && Name(s.project) && Name(s.source) && Name(s.status)
    && (s.request.Some? ==> |s.request.value| <= 512) && (s.command.Some? ==> |s.command.value| <= 512)
    && (s.detail.Some? ==> |s.detail.value| <= 512)
    && Short(s.recent) && Short(s.recentKinds) && Short(s.tasks) && Short(s.questions)
    && |s.recentKinds| == |s.recent|
  }

  predicate Lists(fields: seq<(string, Json.Value)>, key: string, texts: seq<string>) {
    Json.Lookup(fields, key).Some? && ListsTexts(Json.Lookup(fields, key).value, texts)
  }

  /** The fields say what the state says, key by key. */
  predicate Says(f: seq<(string, Json.Value)>, s: State) {
    && Json.Lookup(f, "project") == Some(Json.Str(s.project)) && Json.Lookup(f, "source") == Some(Json.Str(s.source))
    && Json.Lookup(f, "status") == Some(Json.Str(s.status))
    && Json.Lookup(f, "request") == Some(TextOrNull(s.request))
    && Json.Lookup(f, "command_result") == Some(TextOrNull(s.command))
    && Json.Lookup(f, "detail") == Some(TextOrNull(s.detail))
    && Lists(f, "recent", s.recent) && Lists(f, "recent_kinds", s.recentKinds)
    && Lists(f, "tasks", s.tasks) && Lists(f, "questions", s.questions)
    && Json.Lookup(f, "schema_version").Some? && Json.Equals(Json.Lookup(f, "schema_version").value, 2)
    && Json.Lookup(f, "join_state").Some? && Json.Lookup(f, "join_state").value.Str?
    && Json.Lookup(f, "producer_updated_at").Some?
    && (Json.Lookup(f, "producer_updated_at").value.Real? || Json.Lookup(f, "producer_updated_at").value.Num?)
  }

  lemma KeysSpelled()
    ensures KEYS[0] == "command_result" && KEYS[1] == "detail" && KEYS[2] == "join_state"
    ensures KEYS[3] == "producer_updated_at" && KEYS[4] == "project" && KEYS[5] == "questions"
    ensures KEYS[6] == "recent" && KEYS[7] == "recent_kinds" && KEYS[8] == "request"
    ensures KEYS[9] == "schema_version" && KEYS[10] == "source" && KEYS[11] == "status" && KEYS[12] == "tasks"
  {
  }

  lemma KeysRequired(key: string)
    ensures key in KEYS <==> Required(key)
  {
    KeysSpelled();
    if key in KEYS {
      var i :| 0 <= i < 13 && KEYS[i] == key;
    }
  }

  lemma FieldsSay(f: seq<(string, Json.Value)>)
    requires ReadFields(f).Some?
    ensures Says(f, ReadFields(f).value)
  {
    hide Json.Lookup, TextItems, ParseJoin, Json.Equals, ListsTexts;
    KeysSpelled();
    forall i: nat | i < 13 ensures Field(f, i) == Json.Lookup(f, KEYS[i]) {
    }
    ListSays(f, 5);
    ListSays(f, 6);
    ListSays(f, 7);
    ListSays(f, 12);
  }

  lemma ListSays(f: seq<(string, Json.Value)>, i: nat)
    requires i < 13
    ensures AsItems(Field(f, i)).Some? ==> Lists(f, KEYS[i], AsItems(Field(f, i)).value)
  {
    hide Json.Lookup, TextItems, ListsTexts;
    var v := Field(f, i);
    if AsItems(v).Some? { TextItemsAre(v.value.items); }
  }

  lemma PresentKey(f: seq<(string, Json.Value)>, key: string)
    requires KeysMatch(f) && Required(key)
    ensures Json.Lookup(f, key).Some?
  {
    hide Json.Lookup, Required;
    KeysRequired(key);
    var i :| 0 <= i < 13 && KEYS[i] == key;
    assert Field(f, i).Some?;
  }

  lemma ValidFits(s: State)
    ensures Valid(s) <==> Fitting(s)
  {
  }

  /** Whatever the reader accepts is a small enough object with exactly the required keys, and the state
      it returns is what the values say, within the limits. */
  lemma ReadIsStrict(text: string)
    requires ReadState(text).Some?
    ensures Utf8Length(text) <= 65536
    ensures var payload := Json.Decode(text);
            && payload.Some? && payload.value.Obj?
            && (forall k :: 0 <= k < |payload.value.fields| ==> Required(payload.value.fields[k].0))
            && (forall key :: Required(key) ==> Json.Lookup(payload.value.fields, key).Some?)
            && Says(payload.value.fields, ReadState(text).value) && Fitting(ReadState(text).value)
  {
    hide Json.Decode, Json.Lookup, ReadFields, Valid, Utf8Length, Says, Fitting, Required;
    var f := Json.Decode(text).value.fields;
    FieldsSay(f);
    ValidFits(ReadState(text).value);
    forall k | 0 <= k < |f| ensures Required(f[k].0) { KeysRequired(f[k].0); }
    forall key | Required(key) ensures Json.Lookup(f, key).Some? { PresentKey(f, key); }
  }
}
