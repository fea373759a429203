/** The opaque page cursor of `mcp/pagination.py`: canonical JSON in unpadded base64url
    (RFC 4648, section 5, padding removed as section 3.2 allows), and the lenient standard
    decoder that reads it back. */
module Cursor {
  import opened Text
  import Json

  // ----- base64url -----

  /** The character of a six-bit group. */
  function Symbol(n: nat): char
    requires n < 64
  {
    if n < 26 then 'A' + n as char
    else if n < 52 then 'a' + (n - 26) as char
    else if n < 62 then '0' + (n - 52) as char
    else if n == 62 then '-'
    else '_'
  }

  /** The six bits a character stands for; the standard alphabet's `+` and `/` are read as well. */
  function Sextet(c: char): (r: Option<nat>)
    ensures r.Some? ==> r.value < 64
  {
    if 'A' <= c <= 'Z' then Some(c as int - 65)
    else if 'a' <= c <= 'z' then Some(c as int - 97 + 26)
    else if '0' <= c <= '9' then Some(c as int - 48 + 52)
    else if c == '-' || c == '+' then Some(62)
    else if c == '_' || c == '/' then Some(63)
    else None
  }

  lemma SymbolRoundTrip(n: nat)
    requires n < 64
    ensures Sextet(Symbol(n)) == Some(n) && Symbol(n) != '=' && (Symbol(n) as int) < 128
  {
  }

  function Quad(a: int, b: int, c: int): (q: string)
    requires 0 <= a < 256 && 0 <= b < 256 && 0 <= c < 256
    ensures |q| == 4
  {
    [Symbol(a / 4), Symbol(a % 4 * 16 + b / 16), Symbol(b % 16 * 4 + c / 64), Symbol(c % 64)]
  }

  /** The symbols of `bs`, without padding. */
  function Body(bs: seq<byte>): string {
    if bs == [] then ""
    else if |bs| == 1 then Quad(bs[0] as int, 0, 0)[..2]
    else if |bs| == 2 then Quad(bs[0] as int, bs[1] as int, 0)[..3]
    else Quad(bs[0] as int, bs[1] as int, bs[2] as int) + Body(bs[3..])
  }

  function Padding(n: nat): (p: string)
    ensures |p| == (4 - n % 4) % 4
    ensures forall i :: 0 <= i < |p| ==> p[i] == '='
  {
    seq((4 - n % 4) % 4, i => '=')
  }

  /** `base64.urlsafe_b64encode`. */
  function EncodeBase64(bs: seq<byte>): string {
    Body(bs) + Padding(|Body(bs)|)
  }

  /** `token.rstrip("=")`. */
  function Unpad(s: string): string {
    if s != "" && s[|s| - 1] == '=' then Unpad(s[..|s| - 1]) else s
  }

  /** The decoder's loop: `quad` symbols of the current group are read, `left` holds their low bits,
      `pads` counts padding inside the group. Foreign characters are skipped. */
  function Scan(s: string, quad: nat, left: nat, pads: nat): Option<seq<byte>>
    requires quad < 4 && left < 64 && (quad == 2 ==> left < 16) && (quad == 3 ==> left < 4)
  {
    if s == "" then if quad == 0 then Some([]) else None
    else if s[0] == '=' then
      if quad >= 2 then (if quad + pads + 1 >= 4 then Some([]) else Scan(s[1..], quad, left, pads + 1))
      else Scan(s[1..], quad, left, pads)
    else
      var x := Sextet(s[0]);
      if x.None? then Scan(s[1..], quad, left, pads)
      else if quad == 0 then Scan(s[1..], 1, x.value, 0)
      else
        var out :=
          if quad == 1 then left * 4 + x.value / 16
          else if quad == 2 then left * 16 + x.value / 4
          else left * 64 + x.value;
        var rest :=
          if quad == 1 then Scan(s[1..], 2, x.value % 16, 0)
          else if quad == 2 then Scan(s[1..], 3, x.value % 4, 0)
          else Scan(s[1..], 0, 0, 0);
        if rest.None? then None else Some([out as byte] + rest.value)
  }

  /** `base64.urlsafe_b64decode` on text: characters beyond ASCII are refused. */
  function DecodeBase64(s: string): Option<seq<byte>> {
    if exists i :: 0 <= i < |s| && s[i] as int >= 128 then None else Scan(s, 0, 0, 0)
  }

  /** The three bytes of a group, from its four six-bit parts. */
  lemma PartsJoin(x: nat, y: nat, z: nat)
    requires x < 256 && y < 256 && z < 256
    ensures x % 4 * 16 + y / 16 < 64 && y % 16 * 4 + z / 64 < 64
    ensures x / 4 * 4 + (x % 4 * 16 + y / 16) / 16 == x
    ensures (x % 4 * 16 + y / 16) % 16 * 16 + (y % 16 * 4 + z / 64) / 4 == y
    ensures (y % 16 * 4 + z / 64) % 4 * 64 + z % 64 == z
  {
  }

  /** One, two, three and four symbols at a group boundary. */
  lemma SymbolsScan(p: nat, q: nat, r: nat, s: nat, rest: string)
    requires p < 64 && q < 64 && r < 64 && s < 64
    ensures Scan([Symbol(p), Symbol(q)] + rest, 0, 0, 0) == Prepend(p * 4 + q / 16, Scan(rest, 2, q % 16, 0))
    ensures Scan([Symbol(r)] + rest, 2, q % 16, 0) == Prepend(q % 16 * 16 + r / 4, Scan(rest, 3, r % 4, 0))
    ensures Scan([Symbol(s)] + rest, 3, r % 4, 0) == Prepend(r % 4 * 64 + s, Scan(rest, 0, 0, 0))
  {
    hide Symbol, Sextet, Scan;
    SymbolRoundTrip(p);
    SymbolRoundTrip(q);
    SymbolRoundTrip(r);
    SymbolRoundTrip(s);
    ScanOne(Symbol(p), [Symbol(q)] + rest, 0, 0);
    assert [Symbol(p), Symbol(q)] + rest == [Symbol(p)] + ([Symbol(q)] + rest);
    ScanOne(Symbol(q), rest, 1, p);
    ScanOne(Symbol(r), rest, 2, q % 16);
    ScanOne(Symbol(s), rest, 3, r % 4);
  }

  lemma GroupScans(a: byte, b: byte, c: byte, rest: string)
    ensures Scan(Quad(a as int, b as int, c as int) + rest, 0, 0, 0) ==
            Prepend(a as int, Prepend(b as int, Prepend(c as int, Scan(rest, 0, 0, 0))))
  {
    hide Symbol, Scan, Prepend;
    var x, y, z := a as int, b as int, c as int;
    PartsJoin(x, y, z);
    var p, q, r, s := x / 4, x % 4 * 16 + y / 16, y % 16 * 4 + z / 64, z % 64;
    SymbolsScan(p, q, r, s, [Symbol(r), Symbol(s)] + rest);
    SymbolsScan(p, q, r, s, [Symbol(s)] + rest);
    SymbolsScan(p, q, r, s, rest);
    assert Quad(x, y, z) + rest == [Symbol(p), Symbol(q)] + ([Symbol(r), Symbol(s)] + rest);
    assert [Symbol(r), Symbol(s)] + rest == [Symbol(r)] + ([Symbol(s)] + rest);
  }

  /** One symbol of the alphabet. */
  lemma ScanOne(symbol: char, rest: string, quad: nat, left: nat)
    requires quad < 4 && left < 64 && (quad == 2 ==> left < 16) && (quad == 3 ==> left < 4)
    requires symbol != '=' && Sextet(symbol).Some?
    ensures var x := Sextet(symbol).value;
            Scan([symbol] + rest, quad, left, 0) ==
            if quad == 0 then Scan(rest, 1, x, 0)
            else if quad == 1 then Prepend(left * 4 + x / 16, Scan(rest, 2, x % 16, 0))
            else if quad == 2 then Prepend(left * 16 + x / 4, Scan(rest, 3, x % 4, 0))
            else Prepend(left * 64 + x, Scan(rest, 0, 0, 0))
  {
    assert ([symbol] + rest)[1..] == rest;
  }

  function Prepend(n: int, r: Option<seq<byte>>): Option<seq<byte>>
    requires 0 <= n < 256
  {
    if r.None? then None else Some([n as byte] + r.value)
  }

  /** Padding closes an unfinished group. */
  lemma PadsScan(left: nat)
    requires left < 4
    ensures Scan("==", 2, left, 0) == Some([]) && Scan("=", 3, left, 0) == Some([])
  {
    assert "=="[1..] == "=";
  }

  lemma LastOneScans(a: byte)
    ensures Scan(Quad(a as int, 0, 0)[..2] + "==", 0, 0, 0) == Some([a])
  {
    hide Symbol, Scan;
    var x := a as int;
    PartsJoin(x, 0, 0);
    SymbolsScan(x / 4, x % 4 * 16, 0, 0, "==");
    PadsScan(0);
    assert Quad(x, 0, 0)[..2] == [Symbol(x / 4), Symbol(x % 4 * 16)];
    assert x % 4 * 16 % 16 == 0 && x / 4 * 4 + x % 4 * 16 / 16 == x;
    assert [a] + [] == [a];
  }

  lemma LastTwoScan(a: byte, b: byte)
    ensures Scan(Quad(a as int, b as int, 0)[..3] + "=", 0, 0, 0) == Some([a, b])
  {
    hide Symbol, Scan;
    var x, y := a as int, b as int;
    PartsJoin(x, y, 0);
    var p, q, r := x / 4, x % 4 * 16 + y / 16, y % 16 * 4;
    SymbolsScan(p, q, r, 0, [Symbol(r)] + "=");
    SymbolsScan(p, q, r, 0, "=");
    PadsScan(r % 4);
    assert Quad(x, y, 0)[..3] + "=" == [Symbol(p), Symbol(q)] + ([Symbol(r)] + "=");
    assert r % 4 == 0 && q % 16 * 16 + r / 4 == y;
    assert [b] + [] == [b] && [a] + [b] == [a, b];
  }

  lemma {:induction false} Base64Scans(bs: seq<byte>)
    ensures Scan(EncodeBase64(bs), 0, 0, 0) == Some(bs)
  {
    hide Quad, Scan;
    if bs == [] {
      assert EncodeBase64(bs) == "";
      assert Scan("", 0, 0, 0) == Some([]) by { ScanNothing(); }
    } else if |bs| == 1 {
      LastOneScans(bs[0]);
      assert EncodeBase64(bs) == Quad(bs[0] as int, 0, 0)[..2] + "==";
      assert bs == [bs[0]];
    } else if |bs| == 2 {
      LastTwoScan(bs[0], bs[1]);
      assert EncodeBase64(bs) == Quad(bs[0] as int, bs[1] as int, 0)[..3] + "=";
      assert bs == [bs[0], bs[1]];
    } else {
      Base64Scans(bs[3..]);
      GroupScans(bs[0], bs[1], bs[2], EncodeBase64(bs[3..]));
      EncodeGroup(bs);
      assert [bs[0]] + ([bs[1]] + ([bs[2]] + bs[3..])) == bs;
    }
  }

  lemma ScanNothing()
    ensures Scan("", 0, 0, 0) == Some([])
  {
  }

  lemma EncodeGroup(bs: seq<byte>)
    requires |bs| >= 3
    ensures EncodeBase64(bs) == Quad(bs[0] as int, bs[1] as int, bs[2] as int) + EncodeBase64(bs[3..])
  {
    hide Quad;
    var q, rest := Quad(bs[0] as int, bs[1] as int, bs[2] as int), Body(bs[3..]);
    assert Padding(|q + rest|) == Padding(|rest|);
    assert (q + rest) + Padding(|rest|) == q + (rest + Padding(|rest|));
  }

  predicate Plain(s: string) {
    forall i :: 0 <= i < |s| ==> Sextet(s[i]).Some? && s[i] != '=' && (s[i] as int) < 128
  }

  lemma QuadPlain(x: nat, y: nat, z: nat)
    requires x < 256 && y < 256 && z < 256
    ensures Plain(Quad(x, y, z))
  {
    hide Symbol, Sextet;
    SymbolRoundTrip(x / 4);
    SymbolRoundTrip(x % 4 * 16 + y / 16);
    SymbolRoundTrip(y % 16 * 4 + z / 64);
    SymbolRoundTrip(z % 64);
  }

  lemma {:induction false} BodyPlain(bs: seq<byte>)
    ensures Plain(Body(bs)) && |Body(bs)| == BodyLength(|bs|)
  {
    hide Quad, Sextet;
    if bs != [] {
      QuadPlain(bs[0] as int, if |bs| > 1 then bs[1] as int else 0, if |bs| > 2 then bs[2] as int else 0);
      if |bs| >= 3 { BodyPlain(bs[3..]); }
    }
  }

  /** Symbols for `n` bytes: strictly increasing in `n`. */
  function BodyLength(n: nat): nat {
    n / 3 * 4 + if n % 3 == 0 then 0 else n % 3 + 1
  }

  lemma UnpadEncoded(bs: seq<byte>)
    ensures Unpad(EncodeBase64(bs)) == Body(bs)
  {
    BodyPlain(bs);
    UnpadAll(Body(bs), Padding(|Body(bs)|));
  }

  lemma {:induction false} UnpadAll(body: string, pad: string)
    requires body != "" ==> body[|body| - 1] != '='
    requires forall i :: 0 <= i < |pad| ==> pad[i] == '='
    ensures Unpad(body + pad) == body
  {
    if pad == "" {
      assert body + pad == body;
    } else {
      assert (body + pad)[..|body + pad| - 1] == body + pad[..|pad| - 1];
      UnpadAll(body, pad[..|pad| - 1]);
    }
  }

  // ----- The cursor -----

  /** `sha256(...).hexdigest()[:16]` of the resolved scope, whatever the digest. */
  predicate IsFingerprint(s: string) {
    |s| == 16 && forall i :: 0 <= i < |s| ==> '0' <= s[i] <= '9' || 'a' <= s[i] <= 'f'
  }

  const CURSOR_VERSION := 1

  function Payload(fingerprint: string, after: int): string {
    Json.Encode(Json.Obj([("a", Json.Num(after)), ("s", Json.Str(fingerprint)), ("v", Json.Num(CURSOR_VERSION))]))
  }

  /** `str.encode()` of an ASCII text. */
  function Bytes(s: string): seq<byte>
    requires forall i :: 0 <= i < |s| ==> (s[i] as int) < 256
  {
    seq(|s|, i requires 0 <= i < |s| => s[i] as int as byte)
  }

  /** Text behind bytes, when they are ASCII. */
  function Characters(bs: seq<byte>): Option<string> {
    if exists i :: 0 <= i < |bs| && bs[i] as int >= 128 then None
    else Some(seq(|bs|, i requires 0 <= i < |bs| => bs[i] as int as char))
  }

  predicate Ascii(s: string) {
    forall i :: 0 <= i < |s| ==> (s[i] as int) < 128
  }

  lemma {:induction false} DecimalAscii(n: int)
    ensures Ascii(Decimal(n))
    decreases n < 0, if n < 0 then -n else n
  {
    if n < 0 { DecimalAscii(-n); } else if n >= 10 { DecimalAscii(n / 10); }
  }

  lemma Unescaped(c: char)
    requires '0' <= c <= '9' || 'a' <= c <= 'z'
    ensures Json.EscapeChar(c) == [c]
  {
  }

  lemma {:induction false} HexUnescaped(s: string)
    requires forall i :: 0 <= i < |s| ==> '0' <= s[i] <= '9' || 'a' <= s[i] <= 'f'
    ensures Json.Escape(s) == s
  {
    hide Json.EscapeChar;
    if s != "" {
      Unescaped(s[0]);
      HexUnescaped(s[1..]);
      assert s == [s[0]] + s[1..];
    }
  }

  /** One field of the payload, whose name is one letter. */
  lemma FieldText(name: char, v: Json.Value)
    requires 'a' <= name <= 'z'
    ensures Json.EncodeField(([name], v)) == "\"" + [name] + "\":" + Json.Encode(v)
  {
    hide Json.Encode, Json.EscapeChar;
    Unescaped(name);
    assert [name][1..] == "";
    assert Json.Escape([name]) == [name] + Json.Escape("") == [name];
  }

  lemma ThreeFieldsText(a: (string, Json.Value), s: (string, Json.Value), v: (string, Json.Value))
    ensures Json.EncodeFields([a, s, v]) == Json.EncodeField(a) + ","
            + (Json.EncodeField(s) + "," + Json.EncodeField(v))
  {
    hide Json.EncodeField;
    assert [a, s, v][1..] == [s, v] && [s, v][1..] == [v];
    assert Json.EncodeFields([s, v]) == Json.EncodeField(s) + "," + Json.EncodeField(v);
  }

  /** The payload, spelled out. */
  function PayloadText(fingerprint: string, after: int): string {
    "{\"a\":" + Decimal(after) + ",\"s\":\"" + fingerprint + "\",\"v\":1}"
  }

  lemma PayloadIsText(fingerprint: string, after: int)
    requires IsFingerprint(fingerprint)
    ensures Payload(fingerprint, after) == PayloadText(fingerprint, after)
  {
    hide Decimal, Json.EncodeField, Json.EncodeFields, Json.Escape;
    HexUnescaped(fingerprint);
    var a, s, v := ("a", Json.Num(after)), ("s", Json.Str(fingerprint)), ("v", Json.Num(CURSOR_VERSION));
    FieldText('a', a.1);
    FieldText('s', s.1);
    FieldText('v', v.1);
    DecimalOne();
    ThreeFieldsText(a, s, v);
    assert Json.EncodeField(s) == "\"s\":\"" + fingerprint + "\"";
    assert Json.EncodeField(v) == "\"v\":1";
  }

  lemma TextIsAscii(fingerprint: string, after: int)
    requires IsFingerprint(fingerprint)
    ensures Ascii(PayloadText(fingerprint, after)) && |PayloadText(fingerprint, after)| == |Decimal(after)| + 35
  {
    hide Decimal;
    DecimalAscii(after);
  }

  lemma DecimalOne()
    ensures Decimal(1) == "1"
  {
  }

  /** `encode_cursor` for the scope with this fingerprint. */
  function EncodeCursor(fingerprint: string, after: int): string
    requires IsFingerprint(fingerprint)
  {
    PayloadIsText(fingerprint, after);
    TextIsAscii(fingerprint, after);
    Unpad(EncodeBase64(Bytes(Payload(fingerprint, after))))
  }

  datatype CursorError = NotACursor | WrongVersion | WrongScope | BadPosition
  datatype CursorResult = Position(after: int) | Refused(why: CursorError)

  /** Equality with the version number, as Python compares it: `true` is 1. */
  predicate VersionMatches(v: Option<Json.Value>) {
    v.Some? && (Json.Equals(v.value, CURSOR_VERSION) || v.value == Json.Bool(true))
  }

  /** `decode_cursor`, against the fingerprint of the current scope. */
  function DecodeCursor(token: string, fingerprint: string): CursorResult {
    if Strip(token) == "" then Refused(NotACursor)
    else
      var bytes := DecodeBase64(token + Padding(|token|));
      var text := if bytes.None? then None else Characters(bytes.value);
      var payload := if text.None? then None else Json.Decode(text.value);
      if payload.None? then Refused(NotACursor)
      else if !payload.value.Obj? || !VersionMatches(Json.Lookup(payload.value.fields, "v")) then Refused(WrongVersion)
      else if Json.Lookup(payload.value.fields, "s") != Some(Json.Str(fingerprint)) then Refused(WrongScope)
      else
        var after := Json.Lookup(payload.value.fields, "a");
        if after.Some? && after.value.Num? then Position(after.value.n) else Refused(BadPosition)
  }

  /** The JSON value in a token: ASCII text in base64url, padded as the length asks. */
  function ValueIn(token: string): Option<Json.Value> {
    match DecodeBase64(token + Padding(|token|))
    case None => None
    case Some(bytes) => if exists i :: 0 <= i < |bytes| && bytes[i] as int >= 128 then None
    else Json.Decode(seq(|bytes|, i requires 0 <= i < |bytes| => bytes[i] as int as char))
  }

  /** A token is honoured exactly when it holds an object of this version for the scope of the call;
      then it gives the position the object names. */
  lemma HonouredExactly(token: string, fingerprint: string, after: int)
    ensures DecodeCursor(token, fingerprint) == Position(after) <==>
            && Strip(token) != "" && ValueIn(token).Some? && ValueIn(token).value.Obj?
            && (var f := ValueIn(token).value.fields;
                && Json.Lookup(f, "s") == Some(Json.Str(fingerprint)) && Json.Lookup(f, "a") == Some(Json.Num(after))
                && Json.Lookup(f, "v").Some?
                && (Json.Lookup(f, "v").value == Json.Bool(true) || Json.Equals(Json.Lookup(f, "v").value, 1)))
  {
    hide Json.Lookup, Json.Decode, Strip, DecodeBase64;
  }

  lemma BytesRoundTrip(s: string)
    requires Ascii(s)
    ensures Characters(Bytes(s)) == Some(s)
  {
    assert forall i :: 0 <= i < |s| ==> Bytes(s)[i] as int == s[i] as int;
    assert Characters(Bytes(s)).value == s;
  }

  lemma TokenPlain(fingerprint: string, after: int)
    requires IsFingerprint(fingerprint)
    ensures Ascii(PayloadText(fingerprint, after))
    ensures EncodeCursor(fingerprint, after) == Body(Bytes(PayloadText(fingerprint, after)))
    ensures Plain(EncodeCursor(fingerprint, after))
    ensures |EncodeCursor(fingerprint, after)| == BodyLength(|Decimal(after)| + 35)
  {
    hide Body, Decimal, Payload, PayloadText, Unpad, EncodeBase64, Sextet;
    PayloadIsText(fingerprint, after);
    TextIsAscii(fingerprint, after);
    UnpadEncoded(Bytes(PayloadText(fingerprint, after)));
    BodyPlain(Bytes(PayloadText(fingerprint, after)));
  }

  lemma LookupThree(a: Json.Value, s: Json.Value, v: Json.Value)
    ensures var f := [("a", a), ("s", s), ("v", v)];
            Json.Lookup(f, "a") == Some(a) && Json.Lookup(f, "s") == Some(s) && Json.Lookup(f, "v") == Some(v)
  {
    var f := [("a", a), ("s", s), ("v", v)];
    assert "a"[0] != "s"[0] && "a"[0] != "v"[0] && "s"[0] != "v"[0];
    assert f[..2] == [("a", a), ("s", s)] && f[..2][..1] == [("a", a)] && [("a", a)][..0] == [];
    assert Json.Lookup(f[..1], "a") == Some(a);
    assert Json.Lookup(f[..2], "a") == Json.Lookup(f[..1], "a");
  }

  /** A token read back under the fingerprint it was issued for gives its position; under any other
      fingerprint it is refused as belonging to another scope. */
  lemma CursorRoundTrip(fingerprint: string, after: int, current: string)
    requires IsFingerprint(fingerprint)
    ensures DecodeCursor(EncodeCursor(fingerprint, after), current) ==
            if current == fingerprint then Position(after) else Refused(WrongScope)
  {
    hide Body, Decimal, EncodeCursor, Json.Encode, Json.Decode, Json.Lookup, PayloadText, Strip, Scan, Sextet, Unpad;
    var token, text := EncodeCursor(fingerprint, after), PayloadText(fingerprint, after);
    TokenPlain(fingerprint, after);
    PayloadIsText(fingerprint, after);
    SymbolNotSpace(token[0]);
    NotBlank(token);
    Base64Scans(Bytes(text));
    assert token + Padding(|token|) == EncodeBase64(Bytes(text));
    BytesRoundTrip(text);
    Json.RoundTrip(Json.Obj([("a", Json.Num(after)), ("s", Json.Str(fingerprint)), ("v", Json.Num(CURSOR_VERSION))]));
    LookupThree(Json.Num(after), Json.Str(fingerprint), Json.Num(CURSOR_VERSION));
  }

  lemma SymbolNotSpace(c: char)
    requires Sextet(c).Some?
    ensures !IsSpace(c)
  {
  }

  // ----- Which positions fit the reserved token -----

  const RESERVED_ID := 0x4000_0000_0000_0000

  function PowerOfTen(k: nat): nat {
    if k == 0 then 1 else 10 * PowerOfTen(k - 1)
  }

  lemma {:induction false} DecimalLength(n: nat, k: nat)
    requires k >= 1
    ensures n < PowerOfTen(k) <==> |Decimal(n)| <= k
  {
    if k > 1 {
      if n >= 10 {
        DecimalLength(n / 10, k - 1);
      } else {
        assert PowerOfTen(k) >= 10 by { PowerPositive(k - 1); }
      }
    } else {
      assert PowerOfTen(0) == 1;
      if n >= 10 { assert |Decimal(n / 10)| >= 1; }
    }
  }

  lemma {:induction false} PowerPositive(k: nat)
    ensures PowerOfTen(k) >= 1
  {
    if k > 0 { PowerPositive(k - 1); }
  }

  lemma PowersAt18()
    ensures PowerOfTen(18) == 1_000_000_000_000_000_000 && PowerOfTen(19) == 10_000_000_000_000_000_000
  {
    assert PowerOfTen(6) == 1_000_000;
    assert PowerOfTen(12) == 1_000_000_000_000;
  }

  /** The reserved token is long enough for a position exactly when its decimal has at most 19
      characters: every 63-bit row id, and not every integer. */
  lemma ReservedIsLongEnough(fingerprint: string, after: int)
    requires IsFingerprint(fingerprint)
    ensures |EncodeCursor(fingerprint, after)| <= |EncodeCursor(fingerprint, RESERVED_ID)| <==> |Decimal(after)| <= 19
    ensures 0 <= after < 0x8000_0000_0000_0000 ==> |Decimal(after)| <= 19
  {
    hide Decimal, EncodeCursor, PayloadText, Plain, Body, PowerOfTen;
    TokenPlain(fingerprint, after);
    TokenPlain(fingerprint, RESERVED_ID);
    PowersAt18();
    DecimalLength(RESERVED_ID, 19);
    DecimalLength(RESERVED_ID, 18);
    if after >= 0 { DecimalLength(after, 19); }
  }
}
