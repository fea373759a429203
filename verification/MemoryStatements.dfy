/** Which raw statement on the `memories` table gets through and what it then does: a new row under a
    fresh id that already has evidence, correcting nothing or one live memory it is at least as sure
    as, and a new timestamp for live rows; nothing else. */
module MemoryStatements {
  import opened Text
  import opened MemoryTable

  /** No row corrects `id`. */
  ghost predicate Live(m: Rows, id: int) {
    forall i :: i in m ==> m[i].supersedes != Some(id)
  }

  ghost predicate Insertable(m: Rows, evidenced: set<int>, id: Option<int>, row: Memory) {
    && id.Some? && id.value >= 1 && id.value !in m && id.value in evidenced && 1 <= row.tier <= 5
    && (row.supersedes.Some? ==>
      var corrected := row.supersedes.value;
      corrected in m && Live(m, corrected) && row.tier <= m[corrected].tier)
  }

  /** A SET clause that names no column but the timestamp, and perhaps the id it already has. */
  predicate OnlyRetimes(a: Assignments, target: int) {
    && a.project.None? && a.session.None? && a.statement.None? && a.origin.None? && a.tier.None?
    && a.supersedes.None? && (a.id.Some? ==> a.id.value == target)
  }

  ghost predicate Allowed(m: Rows, evidenced: set<int>, s: Statement) {
    match s
    case Insert(_, id, row) => Insertable(m, evidenced, id, row)
    case Update(_, targets, a) => forall k :: 0 <= k < |targets| && targets[k] in m ==>
        OnlyRetimes(a, targets[k]) && Live(m, targets[k])
    case Delete(deleted) => forall k :: 0 <= k < |deleted| ==> deleted[k] !in m
  }

  /** The targets with their new timestamp, everything else as it was. */
  function Retimed(m: Rows, targets: seq<int>, at: Option<string>): Rows {
    map i | i in m :: if i in targets then m[i].(createdAt := at.GetOr(m[i].createdAt)) else m[i]
  }

  ghost function Effect(m: Rows, s: Statement): Rows {
    match s
    case Insert(_, id, row) => m[id.GetOr(-1) := row]
    case Update(_, targets, a) => Retimed(m, targets, a.createdAt)
    case Delete(_) => m
  }

  lemma LiveIs(m: Rows, id: int)
    ensures Live(m, id) <==> !Superseded(m, id)
  {
  }

  lemma InsertExactly(m: Rows, evidenced: set<int>, orReplace: bool, id: Option<int>, row: Memory)
    ensures InsertRow(m, evidenced, orReplace, id, row) ==
            if Insertable(m, evidenced, id, row) then Some(m[id.value := row]) else None
  {
    hide Superseded, Live;
    if row.supersedes.Some? { LiveIs(m, row.supersedes.value); }
    if Insertable(m, evidenced, id, row) {
      NoConflict(m, id.value, row);
      assert m - ({} + {}) == m;
    }
  }

  lemma NoConflict(m: Rows, id: int, row: Memory)
    requires id !in m && (row.supersedes.Some? ==> Live(m, row.supersedes.value))
    ensures Conflicts(m, id, row, {}) == {}
  {
  }

  lemma UpdateRowExactly(m: Rows, orReplace: bool, target: int, a: Assignments)
    requires Shaped(m)
    ensures UpdateRow(m, orReplace, target, a) ==
            if target in m && !(OnlyRetimes(a, target) && Live(m, target)) then None
            else Some(Retimed(m, [target], a.createdAt))
  {
    hide Superseded, Live, Ranked;
    LiveIs(m, target);
    var rank :| Ranked(m, rank);
    if target !in m {
      assert Retimed(m, [target], a.createdAt) == m;
    } else if OnlyRetimes(a, target) && Live(m, target) {
      RetimeFits(m, rank, orReplace, target, a);
    }
  }

  lemma RetimeFits(m: Rows, rank: map<int, nat>, orReplace: bool, target: int, a: Assignments)
    requires Ranked(m, rank) && target in m && OnlyRetimes(a, target) && Live(m, target)
    ensures UpdateRow(m, orReplace, target, a) == Some(Retimed(m, [target], a.createdAt))
  {
    var row := Assigned(m[target], a);
    assert row == m[target].(createdAt := a.createdAt.GetOr(m[target].createdAt));
    assert Conflicts(m, target, row, {target}) == {};
    assert !UpdateGuarded(m, target, a) by { LiveIs(m, target); }
    assert (m - ({target} + {}))[target := row] == Retimed(m, [target], a.createdAt);
  }

  lemma RetimedLive(m: Rows, targets: seq<int>, at: Option<string>, id: int)
    ensures Live(Retimed(m, targets, at), id) <==> Live(m, id)
  {
    var m' := Retimed(m, targets, at);
    assert forall i :: i in m ==> i in m' && m'[i].supersedes == m[i].supersedes;
  }

  lemma {:induction false} UpdateExactly(m: Rows, orReplace: bool, targets: seq<int>, a: Assignments)
    requires Shaped(m)
    ensures UpdateRows(m, orReplace, targets, a) ==
            if Allowed(m, {}, Update(orReplace, targets, a)) then Some(Retimed(m, targets, a.createdAt)) else None
  {
    hide UpdateRow, Shaped, Live;
    if targets == [] {
      assert Retimed(m, targets, a.createdAt) == m;
    } else {
      var n := |targets| - 1;
      var init, last := targets[..n], targets[n];
      UpdateExactly(m, orReplace, init, a);
      if Allowed(m, {}, Update(orReplace, init, a)) {
        var before := Retimed(m, init, a.createdAt);
        UpdateKeeps(m, orReplace, init, a);
        UpdateRowExactly(before, orReplace, last, a);
        RetimedLive(m, init, a.createdAt, last);
        assert Retimed(before, [last], a.createdAt) == Retimed(m, targets, a.createdAt);
        assert Allowed(m, {}, Update(orReplace, targets, a)) <==> last in m ==> OnlyRetimes(a, last) && Live(m, last);
      } else {
        var k :| 0 <= k < n && init[k] in m && !(OnlyRetimes(a, init[k]) && Live(m, init[k]));
        assert targets[k] == init[k];
      }
    }
  }

  /** A statement gets through exactly when it is allowed, and then has exactly this effect. */
  lemma StatementExactly(m: Rows, evidenced: set<int>, s: Statement)
    requires Shaped(m)
    ensures Exec(m, evidenced, s) == if Allowed(m, evidenced, s) then Some(Effect(m, s)) else None
  {
    hide Shaped;
    match s
    case Insert(orReplace, id, row) => InsertExactly(m, evidenced, orReplace, id, row);
    case Update(orReplace, targets, a) => UpdateExactly(m, orReplace, targets, a);
    case Delete(_) =>
  }

  /** A live memory can always be corrected by one that is as sure of itself. */
  lemma CorrectionGoesThrough(m: Rows, evidenced: set<int>, orReplace: bool, id: int, row: Memory, corrected: int)
    requires Shaped(m) && corrected in m && Live(m, corrected) && row.supersedes == Some(corrected)
    requires id >= 1 && id !in m && id in evidenced && row.tier == m[corrected].tier
    ensures Exec(m, evidenced, Insert(orReplace, Some(id), row)) == Some(m[id := row])
  {
    var rank :| Ranked(m, rank);
    StatementExactly(m, evidenced, Insert(orReplace, Some(id), row));
  }
}
