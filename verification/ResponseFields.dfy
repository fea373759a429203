/** What a page's response object holds, key by key (`mcp/pagination.py`): an extra where there is one,
    and else the scope, the items or the cursor. */
module ResponseFields {
  import opened Text
  import opened Pagination
  import opened Cursor
  import Json

  lemma {:induction false} LookupConcat(a: seq<(string, Json.Value)>, b: seq<(string, Json.Value)>, key: string)
    ensures Json.Lookup(a + b, key) == if Json.Lookup(b, key).Some? then Json.Lookup(b, key) else Json.Lookup(a, key)
  {
    if b == [] {
      assert a + b == a;
    } else {
      var n := |b| - 1;
      assert (a + b)[..|a + b| - 1] == a + b[..n];
      LookupConcat(a, b[..n], key);
    }
  }

  /** Under a key of their own the extras are found as they were given; the three fixed keys are not
      repeated. */
  lemma {:induction false} AddedLookup(q: Query, extras: seq<(string, Json.Value)>, key: string)
    ensures Json.Lookup(Added(q, extras), key) ==
            if key == "scope" || key == q.itemsKey || key == "next_cursor" then None else Json.Lookup(extras, key)
  {
    if extras != [] {
      AddedLookup(q, extras[1..], key);
      var head := extras[0].0;
      var first := if head == "scope" || head == q.itemsKey || head == "next_cursor" then [] else [extras[0]];
      LookupConcat(first, Added(q, extras[1..]), key);
      LookupConcat([extras[0]], extras[1..], key);
      assert extras == [extras[0]] + extras[1..];
      LookupOne(extras[0], key);
    }
  }

  lemma LookupOne(field: (string, Json.Value), key: string)
    ensures Json.Lookup([field], key) == if field.0 == key then Some(field.1) else None
    ensures Json.Lookup([], key) == None
  {
    assert [field][..0] == [];
  }

  lemma LookupThree(a: (string, Json.Value), b: (string, Json.Value), c: (string, Json.Value), key: string)
    ensures Json.Lookup([a, b, c], key) ==
            if c.0 == key then Some(c.1) else if b.0 == key then Some(b.1) else if a.0 == key then Some(a.1) else None
  {
    LookupConcat([a], [b], key);
    LookupConcat([a, b], [c], key);
    assert [a] + [b] == [a, b] && [a, b] + [c] == [a, b, c];
    LookupOne(a, key);
    LookupOne(b, key);
    LookupOne(c, key);
  }

  /** What a reader finds under `key`. */
  function Found(q: Query, items: seq<Json.Value>, after: Option<int>, key: string): Option<Json.Value>
    requires IsQuery(q)
  {
    if Json.Lookup(q.extras, key).Some? then Json.Lookup(q.extras, key)
    else if key == "scope" then Some(q.scope)
    else if key == q.itemsKey then Some(Json.Arr(items))
    else if key == "next_cursor" then
      Some(if after.None? then Json.Null else Json.Str(EncodeCursor(q.fingerprint, after.value)))
    else None
  }

  lemma ResponseFound(q: Query, items: seq<Json.Value>, after: Option<int>, key: string)
    requires IsQuery(q)
    ensures Json.Lookup(Response(q, items, after).fields, key) == Found(q, items, after, key)
  {
    hide Json.Lookup, EncodeCursor, Added;
    var a := ("scope", Overridden(q, "scope", q.scope));
    var b := (q.itemsKey, Overridden(q, q.itemsKey, Json.Arr(items)));
    var c := ("next_cursor", Overridden(q, "next_cursor", Token(q, after)));
    assert Response(q, items, after).fields == [a, b, c] + Added(q, q.extras);
    LookupConcat([a, b, c], Added(q, q.extras), key);
    LookupThree(a, b, c, key);
    AddedLookup(q, q.extras, key);
    assert "scope"[0] != "next_cursor"[0];
  }

  /** Every page shows the extras, the scope, the items of the rows it took and the cursor after the
      last of them, and nothing else. */
  lemma PageShows(q: Query, rows: seq<Row>, key: string)
    requires IsQuery(q) && PageOf(q, rows).Page?
    ensures var page := PageOf(q, rows);
            && page.response.Obj? && page.taken <= |rows| && (page.taken == 0 ==> rows == [])
            && Json.Lookup(page.response.fields, key) ==
               Found(q, seq(page.taken, i requires 0 <= i < page.taken => rows[i].item),
                     if page.taken == |rows| then None else Some(rows[page.taken - 1].id), key)
  {
    hide WireSize, Response, Taken, Found;
    var n := PageOf(q, rows).taken;
    assert n == Taken(q, rows, 0);
    ResponseIsObject(q, ItemsOf(rows)[..n], if n == |rows| then None else Some(rows[n - 1].id));
    ResponseFound(q, ItemsOf(rows)[..n], if n == |rows| then None else Some(rows[n - 1].id), key);
    assert ItemsOf(rows)[..n] == seq(n, i requires 0 <= i < n => rows[i].item);
  }

  lemma ResponseIsObject(q: Query, items: seq<Json.Value>, after: Option<int>)
    requires IsQuery(q)
    ensures Response(q, items, after).Obj?
  {
  }
}
