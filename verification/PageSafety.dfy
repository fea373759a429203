/** What every page of `mcp/pagination.py` guarantees: it is the longest prefix that fits, the final
    assertion fires in one case only, and the cursor says exactly whether rows are left. */
module PageSafety {
  import opened Text
  import opened Cursor
  import opened Pagination
  import Json

  lemma TotalsGrow(q: Query, rows: seq<Row>, j: nat, k: nat)
    requires IsQuery(q) && j <= k <= |rows|
    ensures Total(q, rows, j) <= Total(q, rows, k)
    ensures j < k ==> Total(q, rows, j) < Total(q, rows, k)
  {
    hide WireSize, Response, RowsCost;
    var items := ItemsOf(rows)[..k];
    CostsGrow(items, j);
    assert items[..j] == ItemsOf(rows)[..j];
  }

  lemma {:induction false} TakenIsLongest(q: Query, rows: seq<Row>, j: nat, k: nat)
    requires IsQuery(q) && j < k <= |rows|
    ensures k <= Taken(q, rows, j) <==> Total(q, rows, k) <= q.budget
    decreases k - j
  {
    hide Total;
    if Total(q, rows, j + 1) <= q.budget {
      if k > j + 1 { TakenIsLongest(q, rows, j + 1, k); }
    } else {
      TotalsGrow(q, rows, j + 1, k);
    }
  }

  /** A page is the longest prefix of the rows whose event, with room for any cursor, fits the budget:
      a prefix is accepted if and only if its own event fits. */
  lemma LongestPrefixThatFits(q: Query, rows: seq<Row>, k: nat)
    requires IsQuery(q) && NoCollision(q) && 1 <= k <= |rows|
    ensures k <= Taken(q, rows, 0) <==> WireSize(Response(q, ItemsOf(rows)[..k], Some(RESERVED_ID))) <= q.budget
  {
    hide Total, WireSize, Response, Taken, NoCollision;
    TakenIsLongest(q, rows, 0, k);
    RunningTotalIsExact(q, rows, k, None);
  }

  /** Paging gives up on a row exactly when the first row's own event is over budget, and names it. */
  lemma RowTooLargeExactly(q: Query, rows: seq<Row>)
    requires IsQuery(q) && NoCollision(q) && rows != []
    ensures PageOf(q, rows).RowTooLarge? <==>
            WireSize(Response(q, ItemsOf(rows)[..1], Some(RESERVED_ID))) > q.budget
    ensures PageOf(q, rows).RowTooLarge? ==> PageOf(q, rows).id == rows[0].id
  {
    hide Total, WireSize, Response, Taken, NoCollision;
    LongestPrefixThatFits(q, rows, 1);
  }

  /** The final assertion is reachable in one case only: no rows at all, and scope and extras that
      are over budget by themselves. */
  lemma AssertionExactly(q: Query, rows: seq<Row>)
    requires IsQuery(q)
    requires forall i :: 0 <= i < |rows| ==> |Decimal(rows[i].id)| <= 19
    ensures PageOf(q, rows).AssertionFailed? <==> rows == [] && WireSize(Response(q, [], None)) > q.budget
  {
    hide Total, WireSize, Response, Taken, Decimal;
    var n := Taken(q, rows, 0);
    if rows == [] {
      assert ItemsOf(rows)[..0] == [];
    } else if n > 0 {
      TakenIsLongest(q, rows, 0, n);
      SentFitsTotal(q, rows, n, if n == |rows| then None else Some(rows[n - 1].id));
    }
  }

  lemma {:induction false} EscapedNoShorter(s: string)
    ensures EscapedLength(s) >= |Json.Escape(s)| >= |s|
  {
    hide Json.EscapeChar;
    if s != "" {
      EscapedNoShorter(s[1..]);
      EscapeCharSome(s[0]);
      Utf8Adds(Json.EscapeChar(s[0]), Json.Escape(s[1..]));
      BytesNoFewer(Json.EscapeChar(s[0]));
    }
  }

  lemma EscapeCharSome(c: char)
    ensures |Json.EscapeChar(c)| >= 1
  {
  }

  lemma {:induction false} BytesNoFewer(s: string)
    ensures Utf8Length(s) >= |s|
  {
    if s != "" { BytesNoFewer(s[1..]); }
  }

  lemma NamedScopeText(name: string)
    ensures |name| <= |Json.EncodeField(("scope", Json.Obj([("project", Json.Str(name))])))|
  {
    hide Json.Escape;
    var project := ("project", Json.Str(name));
    FieldIs("scope", Json.Obj([project]));
    FieldIs("project", Json.Str(name));
    QuoteIs(name);
    EscapedNoShorter(name);
    assert [project][1..] == [];
  }

  /** It does fail: asking for a project under a name that is longer than the budget, and finding
      nothing. */
  lemma LongNameFiresAssertion(name: string, fingerprint: string, budget: nat)
    requires IsFingerprint(fingerprint) && |name| >= budget
    ensures var q := Query(Json.Obj([("project", Json.Str(name))]), fingerprint, "memories", [], budget);
            PageOf(q, []) == AssertionFailed
  {
    hide WireSize, Json.EncodeField, Taken, EscapedLength;
    var q := Query(Json.Obj([("project", Json.Str(name))]), fingerprint, "memories", [], budget);
    var empty := Response(q, [], None);
    var scope, items, cursor := ("scope", q.scope), ("memories", Json.Arr([])), ("next_cursor", Json.Null);
    assert empty == Json.Obj([scope, items, cursor]);
    ThreeFields(scope, items, cursor);
    NamedScopeText(name);
    WireIsFramePlusEscaped(empty);
    hide Json.Encode;
    EscapedNoShorter(Json.Encode(empty));
    AssertionExactly(q, []);
  }

  /** The bound on ids is needed for every longer id: some budget makes the assertion fail on a page
      that ends with such a row. */
  lemma LongIdFiresAssertion(q: Query, first: Row, second: Row)
    requires IsQuery(q) && NoCollision(q)
    requires |Decimal(first.id)| > 19
    ensures exists budget :: PageOf(q.(budget := budget), [first, second]) == AssertionFailed
  {
    hide WireSize, Response, NoCollision, Decimal, EncodeCursor, Total, Taken;
    var rows := [first, second];
    var tight := q.(budget := Total(q, rows, 1));
    SameCollisions(q, tight);
    TotalIgnoresBudget(q, tight, rows, 1);
    TotalsGrow(tight, rows, 1, 2);
    TakenIsLongest(tight, rows, 0, 1);
    TakenIsLongest(tight, rows, 0, 2);
    RunningTotalIsExact(tight, rows, 1, Some(first.id));
    ReservedIsLongEnough(q.fingerprint, first.id);
    assert PageOf(tight, rows) == AssertionFailed;
  }

  lemma SameCollisions(q: Query, r: Query)
    requires r == q.(budget := r.budget)
    ensures NoCollision(r) == NoCollision(q)
  {
  }

  lemma {:induction false} AddedIgnoresBudget(q: Query, r: Query, extras: seq<(string, Json.Value)>)
    requires r == q.(budget := r.budget)
    ensures Added(r, extras) == Added(q, extras)
  {
    if extras != [] { AddedIgnoresBudget(q, r, extras[1..]); }
  }

  lemma TotalIgnoresBudget(q: Query, r: Query, rows: seq<Row>, k: nat)
    requires IsQuery(q) && r == q.(budget := r.budget) && k <= |rows|
    ensures Total(r, rows, k) == Total(q, rows, k)
  {
    hide WireSize, RowsCost, EncodeCursor, Added;
    AddedIgnoresBudget(q, r, q.extras);
  }

  // ----- What the response holds -----

  lemma {:induction false} LookupAppend(a: seq<(string, Json.Value)>, b: seq<(string, Json.Value)>, key: string)
    ensures Json.Lookup(a + b, key) == if Json.Lookup(b, key).Some? then Json.Lookup(b, key) else Json.Lookup(a, key)
  {
    if b == [] {
      assert a + b == a;
    } else {
      assert (a + b)[..|a + b| - 1] == a + b[..|b| - 1];
      LookupAppend(a, b[..|b| - 1], key);
    }
  }

  lemma {:induction false} AddedIsNew(q: Query, extras: seq<(string, Json.Value)>, key: string)
    requires key == "scope" || key == q.itemsKey || key == "next_cursor"
    ensures Json.Lookup(Added(q, extras), key) == None
  {
    hide Json.Lookup;
    if extras == [] {
      NothingFound(key);
    } else {
      var name := extras[0].0;
      var kept := if name == "scope" || name == q.itemsKey || name == "next_cursor" then [] else [extras[0]];
      AddedIsNew(q, extras[1..], key);
      LookupAppend(kept, Added(q, extras[1..]), key);
      if kept != [] { OneFound(extras[0], key); } else { NothingFound(key); }
    }
  }

  lemma NothingFound(key: string)
    ensures Json.Lookup([], key) == None
  {
  }

  lemma OneFound(f: (string, Json.Value), key: string)
    ensures Json.Lookup([f], key) == if f.0 == key then Some(f.1) else None
  {
    assert [f][..0] == [];
  }

  lemma ResponseHolds(q: Query, items: seq<Json.Value>, after: Option<int>)
    requires IsQuery(q) && NoCollision(q)
    ensures Json.Lookup(Response(q, items, after).fields, q.itemsKey) == Some(Json.Arr(items))
    ensures Json.Lookup(Response(q, items, after).fields, "next_cursor") == Some(Token(q, after))
  {
    hide Json.Lookup, Added, Token;
    var f := ("scope", Overridden(q, "scope", q.scope));
    var g, h := (q.itemsKey, Json.Arr(items)), ("next_cursor", Token(q, after));
    AddedIsNew(q, q.extras, q.itemsKey);
    AddedIsNew(q, q.extras, "next_cursor");
    LookupAppend([f, g, h], Added(q, q.extras), q.itemsKey);
    LookupAppend([f, g, h], Added(q, q.extras), "next_cursor");
    assert [f, g, h] == [f, g] + [h] && [f, g] == [f] + [g];
    LookupAppend([f, g], [h], q.itemsKey);
    LookupAppend([f, g], [h], "next_cursor");
    LookupAppend([f], [g], q.itemsKey);
    OneFound(h, q.itemsKey);
    OneFound(h, "next_cursor");
    OneFound(g, q.itemsKey);
  }

  /** A page holds its rows in order; its cursor is null exactly when the last row is included, and
      otherwise decodes, under the same scope, to the id of the last row on the page. */
  lemma CursorContinuesAfterPage(q: Query, rows: seq<Row>)
    requires IsQuery(q) && NoCollision(q)
    requires PageOf(q, rows).Page?
    ensures var p := PageOf(q, rows);
            && p.taken <= |rows| && p.response.Obj? && WireSize(p.response) <= q.budget
            && Json.Lookup(p.response.fields, q.itemsKey) == Some(Json.Arr(ItemsOf(rows)[..p.taken]))
    ensures var p := PageOf(q, rows);
            && (Json.Lookup(p.response.fields, "next_cursor") == Some(Json.Null) <==> p.taken == |rows|)
            && (p.taken < |rows| ==> p.taken > 0 && exists token ::
                  && Json.Lookup(p.response.fields, "next_cursor") == Some(Json.Str(token))
                  && DecodeCursor(token, q.fingerprint) == Position(rows[p.taken - 1].id))
  {
    hide WireSize, Taken, Total, NoCollision, Json.Lookup, DecodeCursor, EncodeCursor;
    var n := PageOf(q, rows).taken;
    var after := if n == |rows| then None else Some(rows[n - 1].id);
    ResponseHolds(q, ItemsOf(rows)[..n], after);
    if after.Some? { CursorRoundTrip(q.fingerprint, after.value, q.fingerprint); }
  }
}
