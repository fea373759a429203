/** The `memories` table under raw SQL: the guards of schema migrations 3, 5 and 8
    (`store/schema.py`), as SQLite applies them to INSERT, UPDATE and DELETE with or without
    OR REPLACE. Foreign keys are not relied on: they depend on a per-connection pragma. */
module MemoryTable {
  import opened Text

  datatype Memory = Memory(
    project: int, session: Option<int>, statement: string, origin: string,
    tier: int, supersedes: Option<int>, createdAt: string)

  type Rows = map<int, Memory>

  /** The SET clause of an UPDATE: the columns it names and the values it gives them. */
  datatype Assignments = Assignments(
    id: Option<int>, project: Option<int>, session: Option<Option<int>>, statement: Option<string>,
    origin: Option<string>, tier: Option<int>, supersedes: Option<Option<int>>, createdAt: Option<string>)

  datatype Statement =
    | Insert(insertOrReplace: bool, id: Option<int>, row: Memory)
    | Update(updateOrReplace: bool, targets: seq<int>, columns: Assignments)
    | Delete(deleted: seq<int>)

  predicate Superseded(m: Rows, id: int) {
    exists i :: i in m && m[i].supersedes == Some(id)
  }

  // ----- Guards -----

  /** `NEW.id` as a BEFORE INSERT trigger reads it: -1 when the statement names no id. */
  function NewId(id: Option<int>): int {
    id.GetOr(-1)
  }

  /** Some BEFORE INSERT trigger aborts the statement. */
  predicate InsertGuarded(m: Rows, evidenced: set<int>, id: Option<int>, row: Memory) {
    || NewId(id) in m
    || (row.supersedes.Some? && row.supersedes.value !in m)
    || (row.supersedes.Some? && Superseded(m, row.supersedes.value))
    || (row.supersedes.Some? && row.supersedes.value in m && row.tier > m[row.supersedes.value].tier)
    || NewId(id) < 1 || NewId(id) !in evidenced
  }

  /** Some BEFORE UPDATE trigger aborts the statement at the row `target`. */
  predicate UpdateGuarded(m: Rows, target: int, a: Assignments) {
    || a.tier.Some?
    || (a.id.Some? && a.id.value != target)
    || a.supersedes.Some?
    || Superseded(m, target)
    || a.statement.Some? || a.origin.Some? || a.project.Some? || a.session.Some?
  }

  // ----- The engine: constraint checks and conflict resolution once the guards have passed -----

  predicate TierOk(row: Memory) {
    1 <= row.tier <= 5
  }

  /** Rows other than `except` that a row `id` with this `supersedes` collides with. */
  function Conflicts(m: Rows, id: int, row: Memory, except: set<int>): set<int> {
    set i | i in m && i !in except && (i == id || (row.supersedes.Some? && m[i].supersedes == row.supersedes))
  }

  /** Store `row` under `id` after dropping `gone`; a collision is fatal unless it may replace. */
  function Place(m: Rows, orReplace: bool, id: int, row: Memory, gone: set<int>): Option<Rows> {
    var hit := Conflicts(m, id, row, gone);
    if !TierOk(row) || (hit != {} && !orReplace) then None
    else Some((m - (gone + hit))[id := row])
  }

  function InsertRow(m: Rows, evidenced: set<int>, orReplace: bool, id: Option<int>, row: Memory): Option<Rows> {
    if InsertGuarded(m, evidenced, id, row) then None else Place(m, orReplace, NewId(id), row, {})
  }

  function Assigned(row: Memory, a: Assignments): Memory {
    Memory(a.project.GetOr(row.project), a.session.GetOr(row.session), a.statement.GetOr(row.statement),
           a.origin.GetOr(row.origin), a.tier.GetOr(row.tier), a.supersedes.GetOr(row.supersedes),
           a.createdAt.GetOr(row.createdAt))
  }

  function UpdateRow(m: Rows, orReplace: bool, target: int, a: Assignments): Option<Rows> {
    if target !in m then Some(m)
    else if UpdateGuarded(m, target, a) then None
    else Place(m, orReplace, a.id.GetOr(target), Assigned(m[target], a), {target})
  }

  /** An UPDATE runs row by row and takes back everything when one row aborts. */
  function UpdateRows(m: Rows, orReplace: bool, targets: seq<int>, a: Assignments): Option<Rows> {
    if targets == [] then Some(m)
    else
      var before := UpdateRows(m, orReplace, targets[..|targets| - 1], a);
      if before.None? then None else UpdateRow(before.value, orReplace, targets[|targets| - 1], a)
  }

  function DeleteRows(m: Rows, targets: seq<int>): Option<Rows> {
    if exists k :: 0 <= k < |targets| && targets[k] in m then None else Some(m)
  }

  function Exec(m: Rows, evidenced: set<int>, s: Statement): Option<Rows> {
    match s
    case Insert(orReplace, id, row) => InsertRow(m, evidenced, orReplace, id, row)
    case Update(orReplace, targets, a) => UpdateRows(m, orReplace, targets, a)
    case Delete(targets) => DeleteRows(m, targets)
  }

  /** The table as an object that statements change in place. */
  class Table {
    var rows: Rows

    constructor ()
      ensures rows == map[]
    {
      rows := map[];
    }

    method Execute(evidenced: set<int>, s: Statement) returns (ok: bool)
      modifies this
      ensures ok == Exec(old(rows), evidenced, s).Some?
      ensures rows == Exec(old(rows), evidenced, s).GetOr(old(rows))
    {
      match s {
        case Insert(orReplace, id, row) =>
          var placed := InsertRow(rows, evidenced, orReplace, id, row);
          ok := placed.Some?;
          rows := placed.GetOr(rows);
        case Update(orReplace, targets, a) =>
          var working := rows;
          ok := true;
          for k := 0 to |targets|
            invariant ok && UpdateRows(old(rows), orReplace, targets[..k], a) == Some(working) && rows == old(rows)
          {
            assert targets[..k + 1][..k] == targets[..k];
            var placed := UpdateRow(working, orReplace, targets[k], a);
            if placed.None? {
              UpdateStops(rows, orReplace, targets, a, k + 1);
              ok := false;
              return;
            }
            working := placed.value;
          }
          assert targets[..|targets|] == targets;
          rows := working;
        case Delete(targets) =>
          ok := forall k :: 0 <= k < |targets| ==> targets[k] !in rows;
      }
    }
  }

  lemma {:induction false} UpdateStops(m: Rows, orReplace: bool, targets: seq<int>, a: Assignments, k: nat)
    requires k <= |targets| && UpdateRows(m, orReplace, targets[..k], a).None?
    ensures UpdateRows(m, orReplace, targets, a).None?
    decreases |targets| - k
  {
    if k < |targets| {
      assert targets[..k + 1][..k] == targets[..k];
      UpdateStops(m, orReplace, targets, a, k + 1);
    } else {
      assert targets[..k] == targets;
    }
  }

  // ----- What every statement keeps -----

  /** Everything but the timestamp. */
  function Lasting(row: Memory): Memory {
    row.(createdAt := "")
  }

  /** No row is lost or rewritten; a superseded row does not change at all. */
  ghost predicate Preserves(m: Rows, m': Rows) {
    forall i :: i in m ==> i in m' && Lasting(m'[i]) == Lasting(m[i]) && (Superseded(m, i) ==> m'[i] == m[i])
  }

  /** `rank` witnesses that supersession is a well-founded, injective, tier-monotone relation. */
  ghost predicate Ranked(m: Rows, rank: map<int, nat>) {
    && rank.Keys == m.Keys
    && (forall i :: i in m ==> TierOk(m[i]))
    && (forall i :: i in m && m[i].supersedes.Some? ==>
          m[i].supersedes.value in m && rank[m[i].supersedes.value] < rank[i]
          && m[i].tier <= m[m[i].supersedes.value].tier)
    && (forall i, j :: i in m && j in m && i != j && m[i].supersedes.Some? ==> m[i].supersedes != m[j].supersedes)
  }

  ghost predicate Shaped(m: Rows) {
    exists rank :: Ranked(m, rank)
  }

  lemma RankAbove(rank: map<int, nat>) returns (top: nat)
    ensures forall i :: i in rank ==> rank[i] < top
  {
    top := 0;
    var left := rank.Keys;
    while left != {}
      invariant left <= rank.Keys
      invariant forall i :: i in rank && i !in left ==> rank[i] < top
    {
      var i := AnElement(left);
      if rank[i] >= top { top := rank[i] + 1; }
      left := left - {i};
    }
  }

  lemma InsertKeeps(m: Rows, evidenced: set<int>, orReplace: bool, id: Option<int>, row: Memory)
    requires Shaped(m) && InsertRow(m, evidenced, orReplace, id, row).Some?
    ensures var m' := InsertRow(m, evidenced, orReplace, id, row).value;
            Shaped(m') && Preserves(m, m') && m' == m[NewId(id) := row] && NewId(id) !in m && NewId(id) in evidenced
  {
    var rank :| Ranked(m, rank);
    var top := RankAbove(rank);
    assert Conflicts(m, NewId(id), row, {}) == {};
    var m' := InsertRow(m, evidenced, orReplace, id, row).value;
    assert m' == m[NewId(id) := row];
    assert Ranked(m', rank[NewId(id) := top]);
  }

  /** An UPDATE that gets through changes the timestamp of one live row and nothing else. */
  lemma UpdateRowEffect(m: Rows, rank: map<int, nat>, orReplace: bool, target: int, a: Assignments)
    requires Ranked(m, rank) && UpdateRow(m, orReplace, target, a).Some?
    ensures UpdateRow(m, orReplace, target, a) ==
            Some(if target in m then m[target := m[target].(createdAt := a.createdAt.GetOr(m[target].createdAt))]
                 else m)
    ensures target in m ==> !Superseded(m, target)
  {
    hide TierOk, Superseded;
    if target in m {
      var row := Assigned(m[target], a);
      assert row == m[target].(createdAt := a.createdAt.GetOr(m[target].createdAt));
      assert Conflicts(m, target, row, {target}) == {};
      assert (m - ({target} + {}))[target := row] == m[target := row];
    }
  }

  lemma Retimed(m: Rows, rank: map<int, nat>, target: int, at: string)
    requires Ranked(m, rank) && target in m && !Superseded(m, target)
    ensures var m' := m[target := m[target].(createdAt := at)];
            Ranked(m', rank) && Preserves(m, m') && forall i :: Superseded(m, i) <==> Superseded(m', i)
  {
    var m' := m[target := m[target].(createdAt := at)];
    forall i ensures Superseded(m, i) <==> Superseded(m', i) {
      if Superseded(m, i) { var j :| j in m && m[j].supersedes == Some(i); assert m'[j].supersedes == Some(i); }
      if Superseded(m', i) { var j :| j in m' && m'[j].supersedes == Some(i); assert m[j].supersedes == Some(i); }
    }
  }

  lemma UpdateRowKeeps(m: Rows, orReplace: bool, target: int, a: Assignments)
    requires Shaped(m) && UpdateRow(m, orReplace, target, a).Some?
    ensures var m' := UpdateRow(m, orReplace, target, a).value;
            Shaped(m') && Preserves(m, m') && m'.Keys == m.Keys
            && (forall i :: Superseded(m, i) <==> Superseded(m', i))
  {
    hide Ranked, UpdateRow;
    var rank :| Ranked(m, rank);
    UpdateRowEffect(m, rank, orReplace, target, a);
    if target in m {
      Retimed(m, rank, target, a.createdAt.GetOr(m[target].createdAt));
    }
  }

  lemma {:induction false} UpdateKeeps(m: Rows, orReplace: bool, targets: seq<int>, a: Assignments)
    requires Shaped(m) && UpdateRows(m, orReplace, targets, a).Some?
    ensures var m' := UpdateRows(m, orReplace, targets, a).value;
            Shaped(m') && Preserves(m, m') && m'.Keys == m.Keys
            && (forall i :: Superseded(m, i) <==> Superseded(m', i))
  {
    if targets != [] {
      var n := |targets| - 1;
      UpdateKeeps(m, orReplace, targets[..n], a);
      UpdateRowKeeps(UpdateRows(m, orReplace, targets[..n], a).value, orReplace, targets[n], a);
    }
  }

  /** Whatever one raw statement does, no row is lost or rewritten and the shape stays. */
  lemma StatementKeeps(m: Rows, evidenced: set<int>, s: Statement)
    requires Shaped(m) && Exec(m, evidenced, s).Some?
    ensures Shaped(Exec(m, evidenced, s).value) && Preserves(m, Exec(m, evidenced, s).value)
  {
    match s
    case Insert(orReplace, id, row) => InsertKeeps(m, evidenced, orReplace, id, row);
    case Update(orReplace, targets, a) => UpdateKeeps(m, orReplace, targets, a);
    case Delete(_) =>
  }

  /** A statement and the memory ids that some evidence row names when it runs. */
  datatype Step = Step(evidenced: set<int>, statement: Statement)

  /** A run of raw statements; one that aborts changes nothing. */
  function Run(m: Rows, steps: seq<Step>): Rows {
    if steps == [] then m
    else
      var before := Run(m, steps[..|steps| - 1]);
      Exec(before, steps[|steps| - 1].evidenced, steps[|steps| - 1].statement).GetOr(before)
  }

  lemma PreservesTransitive(a: Rows, b: Rows, c: Rows)
    requires Preserves(a, b) && Preserves(b, c)
    ensures Preserves(a, c)
  {
    forall i | i in a ensures i in c && Lasting(c[i]) == Lasting(a[i]) && (Superseded(a, i) ==> c[i] == a[i]) {
      assert i in b && Lasting(b[i]) == Lasting(a[i]);
      assert i in c && Lasting(c[i]) == Lasting(b[i]);
      if Superseded(a, i) {
        var j :| j in a && a[j].supersedes == Some(i);
        assert Lasting(b[j]) == Lasting(a[j]);
        assert b[j].supersedes == Lasting(b[j]).supersedes == Lasting(a[j]).supersedes;
        assert Superseded(b, i);
      }
    }
  }

  /** Over every sequence of raw statements, from an empty table or any well-shaped one. */
  lemma {:induction false} RunKeeps(m: Rows, steps: seq<Step>)
    requires Shaped(m)
    ensures Shaped(Run(m, steps)) && Preserves(m, Run(m, steps))
  {
    if steps != [] {
      var n := |steps| - 1;
      RunKeeps(m, steps[..n]);
      var before := Run(m, steps[..n]);
      if Exec(before, steps[n].evidenced, steps[n].statement).Some? {
        StatementKeeps(before, steps[n].evidenced, steps[n].statement);
        PreservesTransitive(m, before, Run(m, steps));
      }
    }
  }

  lemma EmptyIsShaped()
    ensures Shaped(map[])
  {
    assert Ranked(map[], map[]);
  }

  // ----- Chains -----

  /** From a live memory down its predecessors to one that supersedes nothing. */
  ghost predicate LiveChain(m: Rows, c: seq<int>) {
    && c != [] && !Superseded(m, c[0])
    && (forall k :: 0 <= k < |c| ==> c[k] in m)
    && (forall k :: 0 <= k < |c| - 1 ==> m[c[k]].supersedes == Some(c[k + 1]))
    && m[c[|c| - 1]].supersedes.None?
  }

  /** From `i` down to the root. */
  ghost function Down(m: Rows, rank: map<int, nat>, i: int): (c: seq<int>)
    requires Ranked(m, rank) && i in m
    ensures c != [] && c[0] == i
    ensures forall k :: 0 <= k < |c| ==> c[k] in m
    ensures forall k :: 0 <= k < |c| - 1 ==> m[c[k]].supersedes == Some(c[k + 1])
    ensures m[c[|c| - 1]].supersedes.None?
    decreases rank[i]
  {
    if m[i].supersedes.None? then [i] else [i] + Down(m, rank, m[i].supersedes.value)
  }

  /** The ids ranked above `i`. */
  ghost function Above(m: Rows, rank: map<int, nat>, i: int): set<int>
    requires Ranked(m, rank) && i in m
  {
    set j | j in m && rank[j] > rank[i]
  }

  /** The live head above `i`, with a chain from it through `i`. */
  lemma {:induction false} ChainThrough(m: Rows, rank: map<int, nat>, i: int) returns (c: seq<int>)
    requires Ranked(m, rank) && i in m
    ensures LiveChain(m, c) && i in c
    decreases |Above(m, rank, i)|
  {
    if j :| j in m && m[j].supersedes == Some(i) {
      assert Above(m, rank, j) <= Above(m, rank, i) - {j};
      assert j in Above(m, rank, i);
      SmallerSet(Above(m, rank, j), Above(m, rank, i), j);
      c := ChainThrough(m, rank, j);
      var k :| 0 <= k < |c| && c[k] == j;
      assert c[k + 1] == i;
    } else {
      c := Down(m, rank, i);
      assert c[0] == i;
    }
  }

  lemma SmallerSet(a: set<int>, b: set<int>, x: int)
    requires a <= b - {x} && x in b
    ensures |a| < |b|
  {
    SubsetSize(a, b - {x});
    assert |b - {x}| == |b| - 1;
  }

  lemma SupersededBy(m: Rows, i: int, id: int)
    requires i in m && m[i].supersedes == Some(id)
    ensures Superseded(m, id)
  {
  }

  /** The head of one chain can only be the head of another. */
  lemma HeadIsHead(m: Rows, c: seq<int>, d: seq<int>, k: nat)
    requires LiveChain(m, c) && LiveChain(m, d) && k < |c|
    ensures c[k] == d[0] ==> k == 0
  {
    if k > 0 { SupersededBy(m, c[k - 1], c[k]); }
  }

  /** Two live chains that meet are the same chain. */
  lemma {:induction false} ChainsMeetOnce(m: Rows, c: seq<int>, d: seq<int>, k: nat, l: nat)
    requires Shaped(m) && LiveChain(m, c) && LiveChain(m, d)
    requires k < |c| && l < |d| && c[k] == d[l]
    ensures k == l && c == d
    decreases k
  {
    var rank :| Ranked(m, rank);
    if k > 0 && l > 0 {
      assert m[c[k - 1]].supersedes == Some(c[k]) == m[d[l - 1]].supersedes;
      ChainsMeetOnce(m, c, d, k - 1, l - 1);
    } else {
      HeadIsHead(m, c, d, k);
      HeadIsHead(m, d, c, l);
      SameTails(m, c, d, 0);
    }
  }

  lemma NextOnChain(m: Rows, c: seq<int>, k: nat)
    requires LiveChain(m, c) && k < |c|
    ensures if k + 1 < |c| then m[c[k]].supersedes == Some(c[k + 1]) else m[c[k]].supersedes.None?
  {
  }

  lemma {:induction false} SameTails(m: Rows, c: seq<int>, d: seq<int>, k: nat)
    requires LiveChain(m, c) && LiveChain(m, d)
    requires k < |c| && k < |d| && c[k] == d[k]
    ensures c[k..] == d[k..] && |c| == |d|
    decreases |c| - k
  {
    if k + 1 < |c| {
      assert m[c[k]].supersedes == Some(c[k + 1]);
      assert k + 1 < |d|;
      SameTails(m, c, d, k + 1);
      assert c[k..] == [c[k]] + c[k + 1..] && d[k..] == [d[k]] + d[k + 1..];
    } else {
      NextOnChain(m, d, k);
      assert c[k..] == [c[k]] == d[k..];
    }
  }

  lemma RankFalls(m: Rows, rank: map<int, nat>, i: int, below: int)
    requires Ranked(m, rank) && i in m && m[i].supersedes == Some(below)
    ensures below in m && rank[below] < rank[i] && m[i].tier <= m[below].tier
  {
  }

  /** Along a chain the rank falls, so no memory repeats, and confidence never increases downward. */
  lemma {:induction false} ChainDescends(m: Rows, rank: map<int, nat>, c: seq<int>, j: nat, k: nat)
    requires Ranked(m, rank) && LiveChain(m, c) && j < k < |c|
    ensures rank[c[k]] < rank[c[j]] && m[c[j]].tier <= m[c[k]].tier
    decreases k
  {
    NextOnChain(m, c, k - 1);
    RankFalls(m, rank, c[k - 1], c[k]);
    if j < k - 1 { ChainDescends(m, rank, c, j, k - 1); }
  }

  /** Every memory lies on exactly one chain; the chain is finite and free of repeats, its head is
      live, and the head's tier number is at most that of every memory below it. */
  lemma EveryMemoryHasOneChain(m: Rows, i: int)
    requires Shaped(m) && i in m
    ensures exists c :: LiveChain(m, c) && i in c
    ensures forall c, d :: LiveChain(m, c) && LiveChain(m, d) && i in c && i in d ==> c == d
    ensures forall c, j, k :: LiveChain(m, c) && 0 <= j < k < |c| ==> c[j] != c[k] && m[c[j]].tier <= m[c[k]].tier
  {
    var rank :| Ranked(m, rank);
    var chain := ChainThrough(m, rank, i);
    forall c, d | LiveChain(m, c) && LiveChain(m, d) && i in c && i in d ensures c == d {
      var k :| 0 <= k < |c| && c[k] == i;
      var l :| 0 <= l < |d| && d[l] == i;
      ChainsMeetOnce(m, c, d, k, l);
    }
    forall c, j, k | LiveChain(m, c) && 0 <= j < k < |c| ensures c[j] != c[k] && m[c[j]].tier <= m[c[k]].tier {
      ChainDescends(m, rank, c, j, k);
    }
  }

  /** The shape of the store after any raw statements at all. */
  lemma StoreShape(steps: seq<Step>, i: int)
    requires i in Run(map[], steps)
    ensures var m := Run(map[], steps);
            && (exists c :: LiveChain(m, c) && i in c)
            && (forall c, d :: LiveChain(m, c) && LiveChain(m, d) && i in c && i in d ==> c == d)
            && (forall c, j, k :: LiveChain(m, c) && 0 <= j < k < |c| ==> c[j] != c[k] && m[c[j]].tier <= m[c[k]].tier)
  {
    EmptyIsShaped();
    RunKeeps(map[], steps);
    EveryMemoryHasOneChain(Run(map[], steps), i);
  }

  // ----- Reading supersession back -----

  /** `is_superseded` and `successor_of`: the view holds an id exactly when a successor row exists,
      and then there is one successor. */
  function SuccessorOf(m: Rows, id: int): (r: Option<int>)
    requires forall i, j :: i in m && j in m && i != j && m[i].supersedes.Some? ==> m[i].supersedes != m[j].supersedes
    ensures r.Some? <==> Superseded(m, id)
    ensures r.Some? ==> r.value in m && m[r.value].supersedes == Some(id)
  {
    if Superseded(m, id) then
      var i :| i in m && m[i].supersedes == Some(id);
      Some(i)
    else None
  }
}
