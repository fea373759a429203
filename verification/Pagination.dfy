/** Byte-exact keyset pagination (`mcp/pagination.py`): the size of the event a tool result becomes,
    the running estimate kept row by row, and the page cut at the last row that fits. */
module Pagination {
  import opened Text
  import opened Cursor
  import Json

  // ----- Sizes on the wire -----

  /** UTF-8 length of one character (section 3 of RFC 3629). */
  function CharLength(c: char): nat {
    if c as int < 0x80 then 1 else if c as int < 0x800 then 2 else if c as int < 0x1_0000 then 3 else 4
  }

  /** `len(s.encode())`. */
  function Utf8Length(s: string): nat {
    if s == "" then 0 else CharLength(s[0]) + Utf8Length(s[1..])
  }

  /** What `s` costs inside a JSON string. */
  function EscapedLength(s: string): nat {
    Utf8Length(Json.Escape(s))
  }

  const WIDEST_REQUEST_ID := 9_999_999_999_999_999_999

  function Envelope(inner: string): Json.Value {
    Json.Obj([
      ("jsonrpc", Json.Str("2.0")),
      ("id", Json.Num(WIDEST_REQUEST_ID)),
      ("result", Json.Obj([("content", Content(inner)), ("isError", Json.Bool(false))]))])
  }

  function Content(inner: string): Json.Value {
    Json.Arr([Json.Obj([("type", Json.Str("text")), ("text", Json.Str(inner))])])
  }

  /** `wire_size`: the tool's JSON embedded as a string in the envelope, in its event framing. */
  function WireSize(payload: Json.Value): nat {
    Utf8Length("event: message\r\ndata: " + Json.Encode(Envelope(Json.Encode(payload))) + "\r\n\r\n")
  }

  /** `_escaped_size`. */
  function EscapedSize(encoded: string): int {
    Utf8Length(Json.Quote(encoded)) - 2
  }

  lemma {:induction false} Utf8Adds(a: string, b: string)
    ensures Utf8Length(a + b) == Utf8Length(a) + Utf8Length(b)
  {
    if a == "" {
      assert a + b == b;
    } else {
      assert (a + b)[1..] == a[1..] + b;
      Utf8Adds(a[1..], b);
    }
  }

  lemma {:induction false} EscapeAdds(a: string, b: string)
    ensures Json.Escape(a + b) == Json.Escape(a) + Json.Escape(b)
  {
    hide Json.EscapeChar;
    if a == "" {
      assert a + b == b;
    } else {
      assert (a + b)[1..] == a[1..] + b;
      EscapeAdds(a[1..], b);
    }
  }

  /** Escaping is additive over concatenation: the fact the running total rests on. */
  lemma EscapedAdds(a: string, b: string)
    ensures EscapedLength(a + b) == EscapedLength(a) + EscapedLength(b)
  {
    hide Json.Escape, Utf8Length;
    EscapeAdds(a, b);
    Utf8Adds(Json.Escape(a), Json.Escape(b));
  }

  lemma EscapedSizeIsLength(encoded: string)
    ensures EscapedSize(encoded) == EscapedLength(encoded)
  {
    hide Json.Escape;
    Utf8Adds("\"", Json.Escape(encoded));
    Utf8Adds("\"" + Json.Escape(encoded), "\"");
    assert Utf8Length("\"") == 1;
  }

  /** The characters JSON leaves alone and the one it doubles. */
  lemma EscapedMarks()
    ensures EscapedLength(",") == 1 && EscapedLength("[") == 1 && EscapedLength("]") == 1
    ensures EscapedLength("\"") == 2 && EscapedLength("") == 0
  {
    MarkCosts(',');
    MarkCosts('[');
    MarkCosts(']');
    assert Json.Escape("\"") == "\\\"" + Json.Escape("") == "\\\"";
    assert Utf8Length("\\\"") == 1 + Utf8Length("\"") && Utf8Length("\"") == 1;
  }

  lemma MarkCosts(c: char)
    requires 32 <= c as int < 128 && c != '"' && c != '\\'
    ensures EscapedLength([c]) == 1
  {
    assert [c][1..] == "";
    assert Json.Escape([c]) == [c] + Json.Escape("") == [c];
    assert Utf8Length([c]) == CharLength(c) + Utf8Length("");
  }

  /** Text before and after the embedded payload. */
  function Before(): string {
    "{" + Json.EncodeField(("jsonrpc", Json.Str("2.0"))) + "," +
    Json.EncodeField(("id", Json.Num(WIDEST_REQUEST_ID))) + "," +
    Json.Quote("result") + ":{" + Json.Quote("content") + ":[{" + Json.EncodeField(("type", Json.Str("text"))) + "," +
    Json.Quote("text") + ":\""
  }

  function After(): string {
    "\"}]," + Json.EncodeField(("isError", Json.Bool(false))) + "}}"
  }

  lemma TwoFields(f: (string, Json.Value), g: (string, Json.Value))
    ensures Json.Encode(Json.Obj([f, g])) == "{" + Json.EncodeField(f) + "," + Json.EncodeField(g) + "}"
  {
    hide Json.EncodeField;
    assert [f, g][1..] == [g];
    assert Json.EncodeFields([g]) == Json.EncodeField(g);
  }

  lemma ThreeFields(f: (string, Json.Value), g: (string, Json.Value), h: (string, Json.Value))
    ensures Json.Encode(Json.Obj([f, g, h])) ==
            "{" + Json.EncodeField(f) + "," + Json.EncodeField(g) + "," + Json.EncodeField(h) + "}"
  {
    hide Json.EncodeField;
    ThreeFieldsText(f, g, h);
  }

  lemma EnvelopeText(inner: string)
    ensures Json.Encode(Envelope(inner)) == Before() + Json.Escape(inner) + After()
  {
    hide Json.EncodeField, Json.Quote, Json.Escape, Json.Encode;
    var typed, text := ("type", Json.Str("text")), ("text", Json.Str(inner));
    TwoFields(typed, text);
    TwoFields(("content", Content(inner)), ("isError", Json.Bool(false)));
    ThreeFields(("jsonrpc", Json.Str("2.0")), ("id", Json.Num(WIDEST_REQUEST_ID)),
                ("result", Json.Obj([("content", Content(inner)), ("isError", Json.Bool(false))])));
    FieldIs("text", Json.Str(inner));
    FieldIs("content", Content(inner));
    FieldIs("result", Json.Obj([("content", Content(inner)), ("isError", Json.Bool(false))]));
    OneItem(Json.Obj([typed, text]));
    QuoteIs(inner);
  }

  lemma FieldIs(name: string, v: Json.Value)
    ensures Json.EncodeField((name, v)) == Json.Quote(name) + ":" + Json.Encode(v)
  {
  }

  lemma OneItem(v: Json.Value)
    ensures Json.Encode(Json.Arr([v])) == "[" + Json.Encode(v) + "]"
  {
    assert Json.EncodeItems([v]) == Json.Encode(v);
  }

  lemma QuoteIs(s: string)
    ensures Json.Encode(Json.Str(s)) == "\"" + Json.Escape(s) + "\""
  {
  }

  /** Everything around the payload: the same for every payload. */
  function Frame(): nat {
    Utf8Length("event: message\r\ndata: " + Before()) + Utf8Length(After() + "\r\n\r\n")
  }

  /** The size of the event is a constant plus the escaped length of the payload's JSON. */
  lemma WireIsFramePlusEscaped(payload: Json.Value)
    ensures WireSize(payload) == Frame() + EscapedLength(Json.Encode(payload))
  {
    hide Json.Encode, Json.Escape, Utf8Length, Before, After, Envelope;
    var inner, head, tail := Json.Encode(payload), "event: message\r\ndata: ", "\r\n\r\n";
    EnvelopeText(inner);
    var middle := Json.Escape(inner);
    assert head + (Before() + middle + After()) + tail == (head + Before()) + (middle + (After() + tail));
    Utf8Adds(head + Before(), middle + (After() + tail));
    Utf8Adds(middle, After() + tail);
  }

  // ----- Paging -----

  datatype Row = Row(id: int, item: Json.Value)

  /** What one call of a read tool fixes: the resolved scope with its fingerprint, the key the items go
      under, the keys merged in beside them, and the budget. */
  datatype Query = Query(scope: Json.Value, fingerprint: string, itemsKey: string,
                         extras: seq<(string, Json.Value)>, budget: int)

  predicate IsQuery(q: Query) {
    IsFingerprint(q.fingerprint) && q.itemsKey != "scope" && q.itemsKey != "next_cursor"
  }

  /** No extra key replaces the items or the cursor. */
  predicate NoCollision(q: Query) {
    Json.Lookup(q.extras, q.itemsKey).None? && Json.Lookup(q.extras, "next_cursor").None?
  }

  /** `{key: v, ..., **extras}`: an extra key replaces the value in place. */
  function Overridden(q: Query, key: string, v: Json.Value): Json.Value {
    Json.Lookup(q.extras, key).GetOr(v)
  }

  /** The extras under new keys, in their order. */
  function Added(q: Query, extras: seq<(string, Json.Value)>): seq<(string, Json.Value)> {
    if extras == [] then []
    else
      var key := extras[0].0;
      (if key == "scope" || key == q.itemsKey || key == "next_cursor" then [] else [extras[0]]) + Added(q, extras[1..])
  }

  function Token(q: Query, after: Option<int>): Json.Value
    requires IsQuery(q)
  {
    if after.None? then Json.Null else Json.Str(EncodeCursor(q.fingerprint, after.value))
  }

  function Response(q: Query, items: seq<Json.Value>, after: Option<int>): Json.Value
    requires IsQuery(q)
  {
    Json.Obj([
      ("scope", Overridden(q, "scope", q.scope)),
      (q.itemsKey, Overridden(q, q.itemsKey, Json.Arr(items))),
      ("next_cursor", Overridden(q, "next_cursor", Token(q, after)))] + Added(q, q.extras))
  }

  function ItemsOf(rows: seq<Row>): (items: seq<Json.Value>)
    ensures |items| == |rows|
  {
    seq(|rows|, i requires 0 <= i < |rows| => rows[i].item)
  }

  function Cost(item: Json.Value, first: bool): int {
    EscapedSize(Json.Encode(item)) + if first then 0 else 1
  }

  function RowsCost(items: seq<Json.Value>): int {
    if items == [] then 0 else RowsCost(items[..|items| - 1]) + Cost(items[|items| - 1], |items| == 1)
  }

  /** The running total after `k` rows. */
  function Total(q: Query, rows: seq<Row>, k: nat): int
    requires IsQuery(q) && k <= |rows|
  {
    WireSize(Response(q, [], Some(RESERVED_ID))) + RowsCost(ItemsOf(rows)[..k])
  }

  /** Rows accepted, when the first `k` already are. */
  function Taken(q: Query, rows: seq<Row>, k: nat): (n: nat)
    requires IsQuery(q) && k <= |rows|
    ensures k <= n <= |rows|
    decreases |rows| - k
  {
    if k < |rows| && Total(q, rows, k + 1) <= q.budget then Taken(q, rows, k + 1) else k
  }

  datatype Outcome = Page(response: Json.Value, taken: nat) | RowTooLarge(id: int) | AssertionFailed

  function PageOf(q: Query, rows: seq<Row>): Outcome
    requires IsQuery(q)
  {
    var n := Taken(q, rows, 0);
    if n == 0 && rows != [] then RowTooLarge(rows[0].id)
    else
      var response := Response(q, ItemsOf(rows)[..n], if n == |rows| then None else Some(rows[n - 1].id));
      if WireSize(response) <= q.budget then Page(response, n) else AssertionFailed
  }

  lemma TotalStart(q: Query, rows: seq<Row>)
    requires IsQuery(q)
    ensures Total(q, rows, 0) == WireSize(Response(q, [], Some(RESERVED_ID)))
  {
  }

  lemma TotalStep(q: Query, rows: seq<Row>, k: nat)
    requires IsQuery(q) && k < |rows|
    ensures Total(q, rows, k + 1) == Total(q, rows, k) + Cost(rows[k].item, k == 0)
  {
    hide WireSize, Response, Cost;
    var items := ItemsOf(rows);
    assert items[..k + 1][..k] == items[..k] && items[..k + 1][k] == rows[k].item;
  }

  /** `paginate`. */
  method Paginate(q: Query, rows: seq<Row>) returns (outcome: Outcome)
    requires IsQuery(q)
    ensures outcome == PageOf(q, rows)
  {
    hide WireSize, Response, Cost, RowsCost, Total, EncodeCursor;
    var used: int := WireSize(Response(q, [], Some(RESERVED_ID)));
    var page: seq<Json.Value> := [];
    var lastId := 0;
    var i := 0;
    TotalStart(q, rows);
    while i < |rows|
      invariant 0 <= i <= |rows|
      invariant page == ItemsOf(rows)[..i]
      invariant used == Total(q, rows, i)
      invariant i > 0 ==> lastId == rows[i - 1].id
      invariant Taken(q, rows, 0) == Taken(q, rows, i)
    {
      var cost := Cost(rows[i].item, page == []);
      TotalStep(q, rows, i);
      if used + cost > q.budget {
        if page == [] {
          return RowTooLarge(rows[i].id);
        }
        break;
      }
      used := used + cost;
      page := page + [rows[i].item];
      lastId := rows[i].id;
      i := i + 1;
    }
    var response := Response(q, page, if |page| == |rows| then None else Some(lastId));
    outcome := if WireSize(response) <= q.budget then Page(response, |page|) else AssertionFailed;
  }

  // ----- The running total is the wire size -----

  lemma {:induction false} EncodeItemsAppend(items: seq<Json.Value>, last: Json.Value)
    ensures Json.EncodeItems(items + [last]) ==
            Json.EncodeItems(items) + (if items == [] then "" else ",") + Json.Encode(last)
  {
    hide Json.Encode;
    if items == [] {
      assert items + [last] == [last];
    } else {
      assert (items + [last])[1..] == items[1..] + [last];
      EncodeItemsAppend(items[1..], last);
      if |items| == 1 { assert items[1..] == []; }
    }
  }

  lemma {:induction false} ItemsCost(items: seq<Json.Value>)
    ensures EscapedLength(Json.EncodeItems(items)) == RowsCost(items)
  {
    hide EscapedLength, EscapedSize, Json.Encode;
    EscapedMarks();
    if items == [] {
      NoItems();
    } else {
      var init, last := items[..|items| - 1], items[|items| - 1];
      ItemsCost(init);
      assert items == init + [last];
      EncodeItemsAppend(init, last);
      EscapedSizeIsLength(Json.Encode(last));
      var comma := if init == [] then "" else ",";
      EscapedAdds(Json.EncodeItems(init) + comma, Json.Encode(last));
      EscapedAdds(Json.EncodeItems(init), comma);
    }
  }

  lemma NoItems()
    ensures Json.EncodeItems([]) == ""
  {
  }

  /** What a value adds to the event. */
  function Weight(v: Json.Value): nat {
    EscapedLength(Json.Encode(v))
  }

  lemma ListWeight(items: seq<Json.Value>)
    ensures Weight(Json.Arr(items)) == RowsCost(items) + 2
  {
    hide EscapedLength, RowsCost, Json.EncodeItems;
    EscapedMarks();
    ItemsCost(items);
    assert Json.Encode(Json.Arr(items)) == "[" + Json.EncodeItems(items) + "]";
    EscapedAdds("[" + Json.EncodeItems(items), "]");
    EscapedAdds("[", Json.EncodeItems(items));
  }

  lemma TextWeight(s: string)
    requires Plain(s)
    ensures Weight(Json.Str(s)) == |s| + 4
  {
    hide Json.Escape;
    EscapedMarks();
    PlainCosts(s);
    QuoteIs(s);
    EscapedAdds("\"" + Json.Escape(s), "\"");
    EscapedAdds("\"", Json.Escape(s));
    PlainUnescaped(s);
  }

  lemma SymbolUnescaped(c: char)
    requires Sextet(c).Some?
    ensures Json.EscapeChar(c) == [c]
  {
  }

  lemma {:induction false} PlainUnescaped(s: string)
    requires Plain(s)
    ensures Json.Escape(s) == s
  {
    hide Sextet, Json.EscapeChar;
    if s != "" {
      SymbolUnescaped(s[0]);
      PlainUnescaped(s[1..]);
      assert s == [s[0]] + s[1..];
    }
  }

  lemma {:induction false} PlainCosts(s: string)
    requires Plain(s)
    ensures EscapedLength(s) == |s|
  {
    hide Sextet;
    PlainUnescaped(s);
    if s != "" {
      PlainCosts(s[1..]);
      PlainUnescaped(s[1..]);
    }
  }

  function FieldsLength(fields: seq<(string, Json.Value)>): nat {
    EscapedLength(Json.EncodeFields(fields))
  }

  lemma FieldsLengthStep(f: (string, Json.Value), rest: seq<(string, Json.Value)>)
    ensures FieldsLength([f] + rest) ==
            EscapedLength(Json.EncodeField(f)) + if rest == [] then 0 else 1 + FieldsLength(rest)
  {
    hide EscapedLength, Json.EncodeField;
    EscapedMarks();
    assert ([f] + rest)[1..] == rest;
    if rest != [] {
      EscapedAdds(Json.EncodeField(f) + ",", Json.EncodeFields(rest));
      EscapedAdds(Json.EncodeField(f), ",");
    }
  }

  lemma FieldWeight(name: string, v: Json.Value)
    ensures EscapedLength(Json.EncodeField((name, v))) == EscapedLength(Json.Quote(name) + ":") + Weight(v)
  {
    hide EscapedLength, Json.Encode, Json.Quote;
    FieldIs(name, v);
    EscapedAdds(Json.Quote(name) + ":", Json.Encode(v));
  }

  lemma ObjectWeight(fields: seq<(string, Json.Value)>)
    ensures Weight(Json.Obj(fields)) == EscapedLength("{") + FieldsLength(fields) + EscapedLength("}")
  {
    hide EscapedLength, Json.EncodeFields;
    assert Json.Encode(Json.Obj(fields)) == "{" + Json.EncodeFields(fields) + "}";
    EscapedAdds("{" + Json.EncodeFields(fields), "}");
    EscapedAdds("{", Json.EncodeFields(fields));
  }

  function ItemsValue(q: Query, items: seq<Json.Value>): Json.Value {
    Overridden(q, q.itemsKey, Json.Arr(items))
  }

  function CursorValue(q: Query, after: Option<int>): Json.Value
    requires IsQuery(q)
  {
    Overridden(q, "next_cursor", Token(q, after))
  }

  /** The part of the event that depends neither on the items nor on the cursor. */
  function Fixed(q: Query): nat {
    var added := Added(q, q.extras);
    Frame() + EscapedLength("{") + EscapedLength("}")
      + EscapedLength(Json.EncodeField(("scope", Overridden(q, "scope", q.scope)))) +
    EscapedLength(Json.Quote(q.itemsKey) + ":") + EscapedLength(Json.Quote("next_cursor") + ":") +
    2 + if added == [] then 0 else 1 + FieldsLength(added)
  }

  lemma ResponseSize(q: Query, items: seq<Json.Value>, after: Option<int>)
    requires IsQuery(q)
    ensures WireSize(Response(q, items, after)) == Fixed(q) + Weight(ItemsValue(q, items))
            + Weight(CursorValue(q, after))
  {
    hide EscapedLength, Json.EncodeField, FieldsLength, WireSize, Weight, Frame, Json.Quote, Json.Encode, Overridden,
         Added;
    var response, added := Response(q, items, after), Added(q, q.extras);
    WireIsFramePlusEscaped(response);
    var f := ("scope", Overridden(q, "scope", q.scope));
    var g, h := (q.itemsKey, ItemsValue(q, items)), ("next_cursor", CursorValue(q, after));
    WeightIs(response);
    ObjectWeight([f, g, h] + added);
    assert [f, g, h] + added == [f] + ([g] + ([h] + added));
    FieldsLengthStep(f, [g] + ([h] + added));
    FieldsLengthStep(g, [h] + added);
    FieldsLengthStep(h, added);
    FieldWeight(g.0, g.1);
    FieldWeight(h.0, h.1);
  }

  lemma WeightIs(v: Json.Value)
    ensures Weight(v) == EscapedLength(Json.Encode(v))
  {
  }

  /** What a cursor value costs: a quoted token with its quotes escaped, or `null`. */
  lemma TokenWeight(q: Query, after: Option<int>)
    requires IsQuery(q)
    ensures Weight(Token(q, after)) == if after.None? then 4 else |EncodeCursor(q.fingerprint, after.value)| + 4
  {
    hide EncodeCursor, Weight, Plain;
    if after.None? {
      NullWeight();
    } else {
      TokenPlain(q.fingerprint, after.value);
      TextWeight(EncodeCursor(q.fingerprint, after.value));
    }
  }

  lemma NullWeight()
    ensures Weight(Json.Null) == 4
  {
    MarkCosts('n');
    MarkCosts('u');
    MarkCosts('l');
    assert "null" == "n" + ("u" + ("l" + "l"));
    EscapedAdds("n", "u" + ("l" + "l"));
    EscapedAdds("u", "l" + "l");
    EscapedAdds("l", "l");
  }

  // ----- Main results -----

  /** The running total after `k` rows is the exact size of the event holding these rows and the
      reserved cursor; the event finally sent is smaller by exactly the cursor's slack. */
  lemma RunningTotalIsExact(q: Query, rows: seq<Row>, k: nat, after: Option<int>)
    requires IsQuery(q) && NoCollision(q) && k <= |rows|
    ensures Total(q, rows, k) == WireSize(Response(q, ItemsOf(rows)[..k], Some(RESERVED_ID)))
    ensures Total(q, rows, k) - WireSize(Response(q, ItemsOf(rows)[..k], after)) ==
            |EncodeCursor(q.fingerprint, RESERVED_ID)| - if after.None? then 0
              else |EncodeCursor(q.fingerprint, after.value)|
  {
    hide WireSize, Response, Weight, Fixed, RowsCost, EncodeCursor, Json.Lookup;
    var items := ItemsOf(rows)[..k];
    ResponseSize(q, [], Some(RESERVED_ID));
    ResponseSize(q, items, Some(RESERVED_ID));
    ResponseSize(q, items, after);
    ListWeight(items);
    ListWeight([]);
    assert RowsCost([]) == 0 by { NothingCosts(); }
    TokenWeight(q, after);
    TokenWeight(q, Some(RESERVED_ID));
  }

  lemma NothingCosts()
    ensures RowsCost([]) == 0
  {
  }

  lemma {:induction false} CostsGrow(items: seq<Json.Value>, k: nat)
    requires k <= |items|
    ensures 0 <= RowsCost(items[..k]) <= RowsCost(items)
    ensures k < |items| ==> RowsCost(items[..k]) < RowsCost(items)
  {
    hide Cost;
    if k < |items| {
      var init := items[..|items| - 1];
      assert init[..k] == items[..k];
      CostsGrow(init, k);
      CostPositive(items[|items| - 1], |items| == 1);
    } else {
      assert items[..k] == items;
      if k > 0 {
        CostsGrow(items[..k - 1], k - 1);
        CostPositive(items[k - 1], k == 1);
        assert items[..k - 1][..k - 1] == items[..k - 1];
      }
    }
  }

  lemma CostPositive(item: Json.Value, first: bool)
    ensures Cost(item, first) >= 1
  {
    hide EscapedSize;
    EscapedSizeIsLength(Json.Encode(item));
    Json.EncodeStarts(item);
    SomethingCosts(Json.Encode(item));
  }

  lemma SomethingCosts(s: string)
    requires s != ""
    ensures EscapedLength(s) >= 1
  {
    assert Json.Escape(s)[0] == Json.EscapeChar(s[0])[0];
  }

  /** The event never exceeds the running total, whatever the extras replace, once every position
      encodes in 19 characters. */
  lemma SentFitsTotal(q: Query, rows: seq<Row>, k: nat, after: Option<int>)
    requires IsQuery(q) && k <= |rows|
    requires after.Some? ==> |Decimal(after.value)| <= 19
    ensures WireSize(Response(q, ItemsOf(rows)[..k], after)) <= Total(q, rows, k)
  {
    hide WireSize, Response, Weight, Fixed, RowsCost, EncodeCursor, Json.Lookup, Decimal;
    var items := ItemsOf(rows)[..k];
    ResponseSize(q, [], Some(RESERVED_ID));
    ResponseSize(q, items, after);
    ListWeight(items);
    ListWeight([]);
    assert RowsCost([]) == 0 by { NothingCosts(); }
    CostsGrow(items, 0);
    TokenWeight(q, after);
    TokenWeight(q, Some(RESERVED_ID));
    if after.Some? { ReservedIsLongEnough(q.fingerprint, after.value); }
  }
}
