/** Routing one extraction pass (`extract/persist.py`): regeneratable fields overwrite their own
    `current_state` row, durable claims are admitted as memories, and a claim that does not ground
    raises with everything before it left pending on the connection. */
module Persist {
  import opened Text
  import opened EvidenceStore

  datatype StateKey = StateKey(project: int, session: Option<int>, name: string)
  datatype StateRow = StateRow(key: StateKey, value: string, updatedAt: string)

  /** The tables one pass may write: `current_state` in row order, and the memory tables. */
  datatype Store = Store(state: seq<StateRow>, db: Db)

  /** `SELECT id ... WHERE project_id = ? AND session_id IS ? AND key = ?`. */
  function Find(rows: seq<StateRow>, key: StateKey): (at: Option<nat>)
    ensures at.Some? ==> at.value < |rows| && rows[at.value].key == key
    ensures at.None? ==> forall i :: 0 <= i < |rows| ==> rows[i].key != key
  {
    if rows == [] then None
    else if rows[0].key == key then Some(0)
    else
      var rest := Find(rows[1..], key);
      if rest.None? then None else Some(1 + rest.value)
  }

  /** `upsert_current_state`. */
  function Upserted(rows: seq<StateRow>, key: StateKey, value: string, now: string): seq<StateRow> {
    match Find(rows, key)
    case None => rows + [StateRow(key, value, now)]
    case Some(i) => rows[i := StateRow(key, value, now)]
  }

  function ValueOf(rows: seq<StateRow>, key: StateKey): Option<string> {
    match Find(rows, key)
    case None => None
    case Some(i) => Some(rows[i].value)
  }

  predicate OneRowPerKey(rows: seq<StateRow>) {
    forall i, j :: 0 <= i < j < |rows| ==> rows[i].key != rows[j].key
  }

  /** At most one row per key, also where the session is NULL and the UNIQUE index does not help; the
      written key reads back, every other key keeps its row. */
  lemma UpsertOverwritesOneRow(rows: seq<StateRow>, key: StateKey, value: string, now: string, other: StateKey)
    requires OneRowPerKey(rows)
    ensures OneRowPerKey(Upserted(rows, key, value, now))
    ensures ValueOf(Upserted(rows, key, value, now), other) == if other == key then Some(value)
            else ValueOf(rows, other)
    ensures |Upserted(rows, key, value, now)| == |rows| + if ValueOf(rows, key).None? then 1 else 0
    ensures StateRow(key, value, now) in Upserted(rows, key, value, now)
  {
    hide Find;
    var after := Upserted(rows, key, value, now);
    assert OneRowPerKey(after);
    assert after[Find(rows, key).GetOr(|rows|)] == StateRow(key, value, now);
    var at, was := Find(after, other), Find(rows, other);
    if other == key {
      var i := if was.Some? then was.value else |rows|;
      assert after[i] == StateRow(key, value, now);
      assert at.Some? && at.value == i;
    } else if was.Some? {
      assert after[was.value] == rows[was.value];
      assert at.Some? && at.value == was.value;
    } else {
      assert forall i :: 0 <= i < |after| ==> after[i].key == key || (i < |rows| && after[i] == rows[i]);
    }
  }

  datatype Claim = Claim(statement: string, quote: string, chunk: int, cited: Option<(int, int)>)
  datatype Extraction = Extraction(
    currentTask: Option<string>, remainingWork: Option<string>,
    blockersNow: Option<string>, openQuestions: Option<string>,
    decisions: seq<Claim>, resolvedQuestions: seq<Claim>)

  /** Whom a pass writes for: scope, origin prefix, the tier cap of its source, and the clock. */
  datatype Pass = Pass(project: int, session: Option<int>, origin: string, cap: int -> int, now: string)

  const EPHEMERAL_KEYS := ["current_task", "remaining_work", "blockers_now", "open_questions"]

  function Fields(e: Extraction): (fields: seq<Option<string>>)
    ensures |fields| == 4
  {
    [e.currentTask, e.remainingWork, e.blockersNow, e.openQuestions]
  }

  function KeyOf(pass: Pass, i: nat): StateKey
    requires i < 4
  {
    StateKey(pass.project, pass.session, EPHEMERAL_KEYS[i])
  }

  /** `current_state` after the first `n` fields. */
  function Upserts(rows: seq<StateRow>, pass: Pass, e: Extraction, n: nat): seq<StateRow>
    requires n <= 4
  {
    if n == 0 then rows
    else
      var before := Upserts(rows, pass, e, n - 1);
      match Fields(e)[n - 1]
      case None => before
      case Some(value) => Upserted(before, KeyOf(pass, n - 1), value, pass.now)
  }

  function DecisionOf(pass: Pass, c: Claim, kind: string): Decision {
    Decision(pass.project, pass.session, c.statement, c.quote, c.chunk, pass.origin + ":" + kind, c.cited, None,
             pass.now)
  }

  function Claims(pass: Pass, e: Extraction): (ds: seq<Decision>)
    ensures |ds| == |e.decisions| + |e.resolvedQuestions|
  {
    seq(|e.decisions|, i requires 0 <= i < |e.decisions| => DecisionOf(pass, e.decisions[i], "decision")) +
    seq(|e.resolvedQuestions|,
        i requires 0 <= i < |e.resolvedQuestions| => DecisionOf(pass, e.resolvedQuestions[i], "resolved_question"))
  }

  /** Admits claims in order; the first that is refused raises. */
  function AdmitAll(db: Db, claims: seq<Decision>, cap: int -> int): (Db, Option<seq<int>>) {
    if claims == [] then (db, Some([]))
    else
      var (before, ids) := AdmitAll(db, claims[..|claims| - 1], cap);
      if ids.None? then (before, None)
      else
        var (after, id) := Admitted(before, claims[|claims| - 1], cap);
        if id.None? then (after, None) else (after, Some(ids.value + [id.value]))
  }

  /** `persist_extraction`: the pending tables, and the new memory ids unless it raised. */
  function Persisted(store: Store, pass: Pass, e: Extraction): (Store, Option<seq<int>>) {
    var (db, ids) := AdmitAll(store.db, Claims(pass, e), pass.cap);
    (Store(Upserts(store.state, pass, e, 4), db), ids)
  }

  /** The fields, then the decisions, then the resolved questions. */
  method PersistExtraction(store: Store, pass: Pass, e: Extraction) returns (pending: Store, ids: Option<seq<int>>)
    ensures (pending, ids) == Persisted(store, pass, e)
  {
    hide Admitted, Upserted;
    pending, ids := store, Some([]);
    for i := 0 to 4
      invariant pending == store.(state := Upserts(store.state, pass, e, i))
    {
      var field := Fields(e)[i];
      if field.Some? {
        pending := pending.(state := Upserted(pending.state, KeyOf(pass, i), field.value, pass.now));
      }
    }
    var claims := Claims(pass, e);
    for i := 0 to |claims|
      invariant pending.state == Upserts(store.state, pass, e, 4)
      invariant ids.Some? && (pending.db, ids) == AdmitAll(store.db, claims[..i], pass.cap)
    {
      assert claims[..i + 1][..i] == claims[..i];
      var (db, id) := Admitted(pending.db, claims[i], pass.cap);
      pending := pending.(db := db);
      if id.None? {
        RaisedStays(store.db, claims, i + 1, pass.cap);
        return pending, None;
      }
      ids := Some(ids.value + [id.value]);
    }
    assert claims[..|claims|] == claims;
  }

  lemma {:induction false} RaisedStays(db: Db, claims: seq<Decision>, k: nat, cap: int -> int)
    requires k <= |claims| && AdmitAll(db, claims[..k], cap).1.None?
    ensures AdmitAll(db, claims, cap) == AdmitAll(db, claims[..k], cap)
  {
    hide Admitted;
    if k == |claims| {
      assert claims[..k] == claims;
    } else {
      var init := claims[..|claims| - 1];
      assert init[..k] == claims[..k];
      RaisedStays(db, init, k, cap);
    }
  }

  lemma KeysDiffer(pass: Pass, i: nat, j: nat)
    requires i < 4 && j < 4
    ensures KeyOf(pass, i) == KeyOf(pass, j) <==> i == j
  {
    assert EPHEMERAL_KEYS[0][0] == 'c' && EPHEMERAL_KEYS[1][0] == 'r' && EPHEMERAL_KEYS[2][0] == 'b'
           && EPHEMERAL_KEYS[3][0] == 'o';
  }

  lemma {:induction false} UpsertsRead(rows: seq<StateRow>, pass: Pass, e: Extraction, n: nat, key: StateKey)
    requires OneRowPerKey(rows) && n <= 4
    ensures OneRowPerKey(Upserts(rows, pass, e, n))
    ensures (forall i :: 0 <= i < n ==> key != KeyOf(pass, i)) ==>
              ValueOf(Upserts(rows, pass, e, n), key) == ValueOf(rows, key)
    ensures forall i :: 0 <= i < n && key == KeyOf(pass, i) ==>
              ValueOf(Upserts(rows, pass, e, n), key) == if Fields(e)[i].Some? then Fields(e)[i] else ValueOf(rows, key)
  {
    hide Upserted, ValueOf, OneRowPerKey, Fields, KeyOf;
    if n > 0 {
      UpsertsRead(rows, pass, e, n - 1, key);
      var before := Upserts(rows, pass, e, n - 1);
      if Fields(e)[n - 1].Some? {
        UpsertOverwritesOneRow(before, KeyOf(pass, n - 1), Fields(e)[n - 1].value, pass.now, key);
      }
      forall i | 0 <= i < n - 1 ensures KeyOf(pass, i) != KeyOf(pass, n - 1) {
        KeysDiffer(pass, i, n - 1);
      }
    }
  }

  /** What a pass leaves pending: each of its four rows reads back the new field, or is untouched
      where the pass had no opinion; rows of other sessions and keys are untouched; and a pass without
      durable claims touches no memory table at all. */
  lemma PassWritesItsRowsOnly(store: Store, pass: Pass, e: Extraction, key: StateKey)
    requires OneRowPerKey(store.state)
    ensures var after := Persisted(store, pass, e).0;
            && OneRowPerKey(after.state)
            && (forall i :: 0 <= i < 4 && key == KeyOf(pass, i) ==>
                  ValueOf(after.state, key) == if Fields(e)[i].Some? then Fields(e)[i] else ValueOf(store.state, key))
            && ((forall i :: 0 <= i < 4 ==> key != KeyOf(pass, i)) ==>
                  ValueOf(after.state, key) == ValueOf(store.state, key))
            && (e.decisions == [] && e.resolvedQuestions == [] ==> after.db == store.db)
  {
    hide ValueOf, Upserts, Admitted, KeyOf, Fields;
    UpsertsRead(store.state, pass, e, 4, key);
    if e.decisions == [] && e.resolvedQuestions == [] { assert Claims(pass, e) == []; }
  }

  /** Each field of a pass reads back under its own name. */
  lemma FieldsReadByName(store: Store, pass: Pass, e: Extraction)
    requires OneRowPerKey(store.state)
    ensures var after := Persisted(store, pass, e).0;
            && (e.currentTask.Some? ==>
                  ValueOf(after.state, StateKey(pass.project, pass.session, "current_task")) == e.currentTask)
            && (e.remainingWork.Some? ==>
                  ValueOf(after.state, StateKey(pass.project, pass.session, "remaining_work")) == e.remainingWork)
            && (e.blockersNow.Some? ==>
                  ValueOf(after.state, StateKey(pass.project, pass.session, "blockers_now")) == e.blockersNow)
            && (e.openQuestions.Some? ==>
                  ValueOf(after.state, StateKey(pass.project, pass.session, "open_questions")) == e.openQuestions)
  {
    hide ValueOf, Upserts, Admitted, OneRowPerKey;
    forall i: nat | i < 4
      ensures ValueOf(Persisted(store, pass, e).0.state, KeyOf(pass, i))
              == if Fields(e)[i].Some? then Fields(e)[i] else ValueOf(store.state, KeyOf(pass, i))
    {
      PassWritesItsRowsOnly(store, pass, e, KeyOf(pass, i));
    }
    assert KeyOf(pass, 0).name == "current_task" && KeyOf(pass, 1).name == "remaining_work";
    assert KeyOf(pass, 2).name == "blockers_now" && KeyOf(pass, 3).name == "open_questions";
  }
}
