/** Reading a whole scope page by page (`mcp/tools_read.py`, `memory/scope.py`) while other writers
    keep inserting rows at `MAX(id) + 1` (`memory/write.py`). */
module Drain {
  import opened Text
  import opened Cursor
  import opened Pagination
  import opened PageSafety
  import Json

  /** A stored row and the project or session it belongs to. */
  datatype Stored = Stored(row: Row, owner: int)

  type Store = seq<Stored>

  predicate Ascending(store: Store) {
    forall i, j :: 0 <= i < j < |store| ==> store[i].row.id < store[j].row.id
  }

  /** `SELECT ... WHERE owner = ? AND id > ? ORDER BY id`. */
  function ReadAfter(store: Store, owner: int, after: int): seq<Row> {
    if store == [] then []
    else ReadAfter(store[..|store| - 1], owner, after) +
         if store[|store| - 1].owner == owner && store[|store| - 1].row.id > after then [store[|store| - 1].row] else []
  }

  function MaxId(store: Store): int {
    if store == [] then 0 else store[|store| - 1].row.id
  }

  /** Other writers' rows, each at `MAX(id) + 1`. */
  function Insert(store: Store, writes: seq<(int, Json.Value)>): Store {
    if writes == [] then store
    else
      var before := Insert(store, writes[..|writes| - 1]);
      before + [Stored(Row(MaxId(before) + 1, writes[|writes| - 1].1), writes[|writes| - 1].0)]
  }

  datatype Answer = CursorRefused(why: CursorError) | Answered(outcome: Outcome)

  /** `recall` and `sessions` after scope resolution. */
  function Recall(q: Query, store: Store, owner: int, cursor: Option<string>): Answer
    requires IsQuery(q)
  {
    var start := if cursor.None? then Position(0) else DecodeCursor(cursor.value, q.fingerprint);
    match start
    case Refused(why) => CursorRefused(why)
    case Position(after) => Answered(PageOf(q, ReadAfter(store, owner, after)))
  }

  datatype Drained =
    | Complete(items: seq<Json.Value>, store: Store)
    | OutOfCalls
    | Failed(answer: Answer)

  /** One call: the rows other writers inserted before it, and the keys merged into its response, such as
      the freshness, which differs from call to call. */
  datatype Call = Call(writes: seq<(int, Json.Value)>, extras: seq<(string, Json.Value)>)

  function With(q: Query, call: Call): Query {
    q.(extras := call.extras)
  }

  /** A caller that follows `next_cursor` until it is null. On completion, the items collected and the
      store the last call read. */
  function Follow(q: Query, store: Store, owner: int, cursor: Option<string>, calls: seq<Call>): Drained
    requires IsQuery(q)
    decreases |calls|
  {
    if calls == [] then OutOfCalls
    else
      var now := Insert(store, calls[0].writes);
      var answer := Recall(With(q, calls[0]), now, owner, cursor);
      if answer.CursorRefused? || !answer.outcome.Page? || !answer.outcome.response.Obj? then Failed(answer)
      else
        var fields := answer.outcome.response.fields;
        var items, next := Json.Lookup(fields, q.itemsKey), Json.Lookup(fields, "next_cursor");
        if items.None? || !items.value.Arr? then Failed(answer)
        else if next == Some(Json.Null) then Complete(items.value.items, now)
        else if next.None? || !next.value.Str? then Failed(answer)
        else
          var rest := Follow(q, now, owner, Some(next.value.s), calls[1..]);
          if rest.Complete? then Complete(items.value.items + rest.items, rest.store) else rest
  }

  // ----- The table grows at its end -----

  lemma {:induction false} InsertsExtend(store: Store, writes: seq<(int, Json.Value)>)
    requires Ascending(store)
    ensures store <= Insert(store, writes) && Ascending(Insert(store, writes))
  {
    if writes != [] { InsertsExtend(store, writes[..|writes| - 1]); }
  }

  lemma {:induction false} ReadExtends(store: Store, more: Store, owner: int, after: int)
    requires store <= more
    ensures ReadAfter(store, owner, after) <= ReadAfter(more, owner, after)
  {
    if |store| < |more| {
      assert store <= more[..|more| - 1];
      ReadExtends(store, more[..|more| - 1], owner, after);
    } else {
      assert store == more;
    }
  }

  /** Rows of one owner past a position, in ascending order. */
  predicate SortedFrom(rows: seq<Row>, store: Store, owner: int, after: int) {
    && (forall i :: 0 <= i < |rows| ==> after < rows[i].id <= MaxId(store))
    && (forall i :: 0 <= i < |rows| ==> Stored(rows[i], owner) in store)
    && (forall i, j :: 0 <= i < j < |rows| ==> rows[i].id < rows[j].id)
  }

  lemma {:induction false} ReadSorted(store: Store, owner: int, after: int)
    requires Ascending(store)
    ensures SortedFrom(ReadAfter(store, owner, after), store, owner, after)
  {
    if store != [] {
      var init, last := store[..|store| - 1], store[|store| - 1];
      ReadSorted(init, owner, after);
      SortedGrows(ReadAfter(init, owner, after), store, owner, after);
    }
  }

  lemma SortedGrows(rows: seq<Row>, store: Store, owner: int, after: int)
    requires Ascending(store) && store != [] && SortedFrom(rows, store[..|store| - 1], owner, after)
    ensures SortedFrom(rows, store, owner, after)
    ensures forall i :: 0 <= i < |rows| ==> rows[i].id < store[|store| - 1].row.id
    ensures store[|store| - 1].owner == owner && store[|store| - 1].row.id > after ==>
              SortedFrom(rows + [store[|store| - 1].row], store, owner, after)
  {
    var init, last := store[..|store| - 1], store[|store| - 1];
    forall i | 0 <= i < |rows| ensures Stored(rows[i], owner) in store && rows[i].id < last.row.id {
      assert Stored(rows[i], owner) in init;
      assert init != [] && MaxId(init) == init[|init| - 1].row.id == store[|init| - 1].row.id;
    }
    assert Stored(last.row, last.owner) == last && last in store;
  }

  /** What the last stored row adds to a read. */
  lemma ReadLast(store: Store, owner: int, after: int)
    requires store != []
    ensures var init, last := store[..|store| - 1], store[|store| - 1];
            ReadAfter(store, owner, after) ==
            ReadAfter(init, owner, after) + if last.owner == owner && last.row.id > after then [last.row] else []
  {
  }

  lemma TailOfSum(a: seq<Row>, b: seq<Row>, n: nat)
    requires n <= |a|
    ensures (a + b)[n..] == a[n..] + b
  {
  }

  /** Reading after the id of the `n`-th row gives exactly the rows behind it. */
  lemma {:induction false} ReadContinues(store: Store, owner: int, after: int, n: nat)
    requires Ascending(store) && 0 < n <= |ReadAfter(store, owner, after)|
    ensures ReadAfter(store, owner, ReadAfter(store, owner, after)[n - 1].id) == ReadAfter(store, owner, after)[n..]
  {
    var init, last, r := store[..|store| - 1], store[|store| - 1], ReadAfter(store, owner, after);
    var before := ReadAfter(init, owner, after);
    ReadSorted(init, owner, after);
    ReadLast(store, owner, after);
    ReadLast(store, owner, r[n - 1].id);
    SortedGrows(before, store, owner, after);
    hide ReadAfter;
    if n <= |before| {
      ReadContinues(init, owner, after, n);
      assert r[n - 1] == before[n - 1];
      TailOfSum(before, if last.owner == owner && last.row.id > after then [last.row] else [], n);
    } else {
      assert r == before + [last.row];
      assert r[n..] == [];
      NothingPast(store, owner, last.row.id);
    }
  }

  lemma {:induction false} NothingPast(store: Store, owner: int, after: int)
    requires forall i :: 0 <= i < |store| ==> store[i].row.id <= after
    ensures ReadAfter(store, owner, after) == []
  {
    if store != [] { NothingPast(store[..|store| - 1], owner, after); }
  }

  // ----- Main results -----

  /** The position a call resumes from. */
  predicate StartsAt(q: Query, cursor: Option<string>, after: int) {
    (if cursor.None? then Position(0) else DecodeCursor(cursor.value, q.fingerprint)) == Position(after)
  }

  predicate NoneCollide(q: Query, calls: seq<Call>) {
    forall i :: 0 <= i < |calls| ==> NoCollision(With(q, calls[i]))
  }

  /** However many rows other writers insert between calls, and whatever extras each call merges in, a
      caller that reached a null cursor holds every row of the scope past its start, once, in ascending
      order, and nothing else: exactly the content of the table its last call read, which begins with
      everything present at the start. */
  lemma {:induction false} FollowIsExact(q: Query, store: Store, owner: int, cursor: Option<string>, after: int,
                                         calls: seq<Call>)
    requires IsQuery(q) && NoneCollide(q, calls) && Ascending(store)
    requires StartsAt(q, cursor, after)
    requires Follow(q, store, owner, cursor, calls).Complete?
    ensures var d := Follow(q, store, owner, cursor, calls);
            store <= d.store && Ascending(d.store) && d.items == ItemsOf(ReadAfter(d.store, owner, after))
    decreases |calls|
  {
    hide PageOf, NoCollision, DecodeCursor, Json.Lookup, ReadAfter, WireSize;
    var now, first := Insert(store, calls[0].writes), With(q, calls[0]);
    InsertsExtend(store, calls[0].writes);
    var rows := ReadAfter(now, owner, after);
    var p := PageOf(first, rows);
    CursorContinuesAfterPage(first, rows);
    if p.taken == |rows| {
      assert ItemsOf(rows)[..p.taken] == ItemsOf(rows);
    } else {
      var next := Json.Lookup(p.response.fields, "next_cursor").value.s;
      FollowIsExact(q, now, owner, Some(next), rows[p.taken - 1].id, calls[1..]);
      var last := Follow(q, now, owner, Some(next), calls[1..]).store;
      ReadExtends(now, last, owner, after);
      var all := ReadAfter(last, owner, after);
      assert all[p.taken - 1] == rows[p.taken - 1];
      ReadContinues(last, owner, after, p.taken);
      assert ItemsOf(all) == ItemsOf(rows)[..p.taken] + ItemsOf(all[p.taken..]);
    }
  }

  /** Every row present at the start is read, exactly once and before any later row. */
  lemma NothingPresentIsSkipped(q: Query, store: Store, owner: int, calls: seq<Call>)
    requires IsQuery(q) && NoneCollide(q, calls) && Ascending(store)
    requires Follow(q, store, owner, None, calls).Complete?
    ensures ItemsOf(ReadAfter(store, owner, 0)) <= Follow(q, store, owner, None, calls).items
  {
    hide Follow, ReadAfter, NoneCollide;
    FollowIsExact(q, store, owner, None, 0, calls);
    ReadExtends(store, Follow(q, store, owner, None, calls).store, owner, 0);
  }

  /** Each row can be sent alone, and an empty answer can be sent. */
  predicate EachRowFits(q: Query, store: Store)
    requires IsQuery(q)
  {
    && WireSize(Response(q, [], None)) <= q.budget
    && forall i :: 0 <= i < |store| ==> Total(q, [store[i].row], 1) <= q.budget && |Decimal(store[i].row.id)| <= 19
  }

  lemma FirstTotal(q: Query, rows: seq<Row>)
    requires IsQuery(q) && rows != []
    ensures Total(q, rows, 1) == Total(q, [rows[0]], 1)
  {
    hide WireSize, Response, RowsCost;
    assert ItemsOf(rows)[..1] == ItemsOf([rows[0]])[..1];
  }

  /** A call on rows that fit one by one answers with a page, and takes at least one row if there is one. */
  lemma PageTakesRows(q: Query, store: Store, owner: int, after: int)
    requires IsQuery(q) && Ascending(store) && EachRowFits(q, store)
    ensures var rows := ReadAfter(store, owner, after);
            PageOf(q, rows).Page? && PageOf(q, rows).taken <= |rows| && (rows != [] ==> PageOf(q, rows).taken > 0)
  {
    hide WireSize, Response, Total, Taken, Decimal;
    var rows := ReadAfter(store, owner, after);
    ReadSorted(store, owner, after);
    forall i | 0 <= i < |rows| ensures |Decimal(rows[i].id)| <= 19 {
      assert Stored(rows[i], owner) in store;
    }
    AssertionExactly(q, rows);
    if rows != [] {
      FirstTotal(q, rows);
      assert Stored(rows[0], owner) in store;
      TakenIsLongest(q, rows, 0, 1);
    }
  }

  /** No rows arrive any more, and whatever a call merges in leaves room for each row. */
  predicate Settled(q: Query, store: Store, calls: seq<Call>)
    requires IsQuery(q)
  {
    forall i :: 0 <= i < |calls| ==> calls[i].writes == [] && EachRowFits(With(q, calls[i]), store)
  }

  /** Once inserts stop, each call removes at least one row from what is left, so following the cursor
      ends within as many calls as rows are left. */
  lemma {:induction false} FollowEnds(q: Query, store: Store, owner: int, cursor: Option<string>, after: int,
                                      calls: seq<Call>)
    requires IsQuery(q) && NoneCollide(q, calls) && Ascending(store) && Settled(q, store, calls)
    requires StartsAt(q, cursor, after)
    requires |calls| >= 1 && |calls| >= |ReadAfter(store, owner, after)|
    ensures Follow(q, store, owner, cursor, calls).Complete?
    decreases |calls|
  {
    hide PageOf, NoCollision, DecodeCursor, Json.Lookup, ReadAfter, WireSize, EachRowFits;
    assert Insert(store, calls[0].writes) == store;
    var rows, first := ReadAfter(store, owner, after), With(q, calls[0]);
    PageTakesRows(first, store, owner, after);
    CursorContinuesAfterPage(first, rows);
    var p := PageOf(first, rows);
    if p.taken < |rows| {
      var next := Json.Lookup(p.response.fields, "next_cursor").value.s;
      ReadContinues(store, owner, after, p.taken);
      FollowEnds(q, store, owner, Some(next), rows[p.taken - 1].id, calls[1..]);
    }
  }

  /** A cursor from one scope never answers for another: the call is refused, whatever the store. */
  lemma CursorBoundToScope(q: Query, other: Query, store: Store, owner: int, after: int)
    requires IsQuery(q) && IsQuery(other)
    ensures Recall(other, store, owner, Some(EncodeCursor(q.fingerprint, after))) ==
            if other.fingerprint == q.fingerprint then Answered(PageOf(other, ReadAfter(store, owner, after)))
            else CursorRefused(WrongScope)
  {
    hide DecodeCursor, EncodeCursor, PageOf;
    CursorRoundTrip(q.fingerprint, after, other.fingerprint);
  }
}
