/** The JSON texts the program writes and reads back: compact `json.dumps(..., ensure_ascii=False)`
    and `json.loads` (RFC 8259: numbers in section 6, string escapes in section 7). A number with a
    fraction or an exponent is kept as its spelling. */
module Json {
  import opened Text

  datatype Value =
    | Null
    | Bool(b: bool)
    | Num(n: int)
    | Real(text: RealText)
    | Str(s: string)
    | Arr(items: seq<Value>)
    | Obj(fields: seq<(string, Value)>)

  // ----- Numbers -----

  predicate IsDigit(c: char) {
    '0' <= c <= '9'
  }

  function DigitRun(s: string): (n: nat)
    ensures n <= |s|
    ensures forall i :: 0 <= i < n ==> IsDigit(s[i])
    ensures n < |s| ==> !IsDigit(s[n])
  {
    if s != "" && IsDigit(s[0]) then 1 + DigitRun(s[1..]) else 0
  }

  function DigitsValue(s: string): nat
    requires forall i :: 0 <= i < |s| ==> IsDigit(s[i])
  {
    if s == "" then 0 else assert IsDigit(s[|s| - 1]); DigitsValue(s[..|s| - 1]) * 10 + (s[|s| - 1] as int - 48)
  }

  function SignLength(s: string): nat {
    if s != "" && s[0] == '-' then 1 else 0
  }

  /** The sign and the digits of an integer at the start, without superfluous leading zeros. */
  function IntegerLength(s: string): (n: nat)
    ensures n <= |s| && (n > 0 ==> n > SignLength(s))
    ensures forall i :: SignLength(s) <= i < n ==> IsDigit(s[i])
  {
    var m := SignLength(s);
    var d := DigitRun(s[m..]);
    if d == 0 then 0 else if s[m] == '0' then m + 1 else m + d
  }

  function FractionLength(s: string): (n: nat)
    ensures n <= |s| && (n > 0 ==> s[0] == '.' && n > 1)
    ensures forall i :: 1 <= i < n ==> IsDigit(s[i])
  {
    if s == "" || s[0] != '.' || DigitRun(s[1..]) == 0 then 0 else 1 + DigitRun(s[1..])
  }

  /** The letter of an exponent, with its sign. */
  function MarkLength(s: string): nat {
    if |s| > 1 && (s[1] == '+' || s[1] == '-') then 2 else 1
  }

  function ExponentLength(s: string): (n: nat)
    ensures n <= |s| && (n > 0 ==> (s[0] == 'e' || s[0] == 'E') && n > MarkLength(s))
    ensures forall i :: MarkLength(s) <= i < n ==> IsDigit(s[i])
  {
    if s == "" || (s[0] != 'e' && s[0] != 'E') || DigitRun(s[MarkLength(s)..]) == 0 then 0
    else MarkLength(s) + DigitRun(s[MarkLength(s)..])
  }

  /** How much of the start spells a number with a fraction or an exponent. */
  function RealLength(s: string): (n: nat)
    ensures n <= |s|
  {
    var i := IntegerLength(s);
    var f := FractionLength(s[i..]);
    var e := ExponentLength(s[i + f..]);
    if i == 0 || f + e == 0 then 0 else i + f + e
  }

  predicate SpellsReal(s: string) {
    s != "" && RealLength(s) == |s|
  }

  type RealText = s: string | SpellsReal(s) witness "0.0"

  function Scaled(x: real, e: int): real
    decreases if e < 0 then -e else e
  {
    if e == 0 then x else if e > 0 then Scaled(x * 10.0, e - 1) else Scaled(x / 10.0, e + 1)
  }

  function IntegerValue(s: string): nat {
    if IntegerLength(s) == 0 then 0 else DigitsValue(s[SignLength(s)..IntegerLength(s)])
  }

  function FractionValue(s: string): real {
    var n := FractionLength(s);
    if n == 0 then 0.0 else Scaled(DigitsValue(s[1..n]) as real, 1 - n)
  }

  function ExponentValue(s: string): int {
    var n, m := ExponentLength(s), MarkLength(s);
    if n == 0 then 0
    else if s[1] == '-' then 0 - DigitsValue(s[m..n])
    else DigitsValue(s[m..n])
  }

  /** The number that a real spells. */
  function RealValue(s: RealText): real {
    var fraction := s[IntegerLength(s)..];
    var exponent := fraction[FractionLength(fraction)..];
    var x := Scaled(IntegerValue(s) as real + FractionValue(fraction), ExponentValue(exponent));
    if SignLength(s) == 1 then 0.0 - x else x
  }

  /** `v == n` for an integer `n`: the same number, however it is spelled. */
  predicate Equals(v: Value, n: int) {
    v == Num(n) || (v.Real? && RealValue(v.text) == n as real)
  }

  // ----- Writing -----

  function HexDigit(n: nat): char
    requires n < 16
  {
    if n < 10 then '0' + n as char else 'a' + (n - 10) as char
  }

  function EscapeChar(c: char): string {
    if c == '"' then "\\\""
    else if c == '\\' then "\\\\"
    else if c == '\n' then "\\n"
    else if c == '\r' then "\\r"
    else if c == '\t' then "\\t"
    else if c as int == 8 then "\\b"
    else if c as int == 12 then "\\f"
    else if c as int < 32 then ['\\', 'u', '0', '0', HexDigit(c as int / 16), HexDigit(c as int % 16)]
    else [c]
  }

  function Escape(s: string): string {
    if s == "" then "" else EscapeChar(s[0]) + Escape(s[1..])
  }

  function Quote(s: string): string {
    "\"" + Escape(s) + "\""
  }

  /** `json.dumps(v, ensure_ascii=False, separators=(",", ":"))`. */
  function Encode(v: Value): string
    decreases v
  {
    match v
    case Null => "null"
    case Bool(b) => if b then "true" else "false"
    case Num(n) => Decimal(n)
    case Real(text) => text
    case Str(s) => Quote(s)
    case Arr(items) => "[" + EncodeItems(items) + "]"
    case Obj(fields) => "{" + EncodeFields(fields) + "}"
  }

  function EncodeItems(items: seq<Value>): string
    decreases items
  {
    if items == [] then ""
    else if |items| == 1 then Encode(items[0])
    else Encode(items[0]) + "," + EncodeItems(items[1..])
  }

  function EncodeField(f: (string, Value)): string
    decreases f, 1
  {
    Quote(f.0) + ":" + Encode(f.1)
  }

  function EncodeFields(fields: seq<(string, Value)>): string
    decreases fields
  {
    if fields == [] then ""
    else if |fields| == 1 then EncodeField(fields[0])
    else EncodeField(fields[0]) + "," + EncodeFields(fields[1..])
  }

  // ----- Reading -----

  predicate IsBlank(c: char) {
    c == ' ' || c == '\t' || c == '\n' || c == '\r'
  }

  function SkipBlank(s: string): (r: string)
    ensures |r| <= |s|
  {
    if s != "" && IsBlank(s[0]) then SkipBlank(s[1..]) else s
  }

  /** An integer without superfluous leading zeros. */
  function ParseNatural(s: string): (r: Option<(nat, string)>)
    ensures r.Some? ==> |r.value.1| < |s|
  {
    var n := DigitRun(s);
    if n == 0 then None
    else
      var k := if s[0] == '0' then 1 else n;
      Some((DigitsValue(s[..k]), s[k..]))
  }

  function HexValue(c: char): Option<nat> {
    if '0' <= c <= '9' then Some((c - '0') as int)
    else if 'a' <= c <= 'f' then Some((c - 'a') as int + 10)
    else if 'A' <= c <= 'F' then Some((c - 'A') as int + 10)
    else None
  }

  function HexFour(s: string): Option<nat>
    requires |s| >= 4
  {
    var (a, b, c, d) := (HexValue(s[0]), HexValue(s[1]), HexValue(s[2]), HexValue(s[3]));
    if a.None? || b.None? || c.None? || d.None? then None
    else Some(((a.value * 16 + b.value) * 16 + c.value) * 16 + d.value)
  }

  /** The code point after `\u`, with the length it takes: a surrogate pair takes both escapes. */
  function ParseUnicode(s: string): (r: Option<(char, nat)>)
    ensures r.Some? ==> 0 < r.value.1 <= |s|
  {
    if |s| < 4 || HexFour(s).None? then None
    else
      var n := HexFour(s).value;
      if n < 0xd800 || 0xe000 <= n < 0x10000 then Some((n as char, 4))
      else if n < 0xdc00 && |s| >= 10 && s[4..6] == "\\u" && HexFour(s[6..]).Some?
        && 0xdc00 <= HexFour(s[6..]).value < 0xe000 then
        Some(((0x10000 + (n - 0xd800) * 0x400 + (HexFour(s[6..]).value - 0xdc00)) as char, 10))
      else None
  }

  function SimpleEscape(c: char): Option<char> {
    match c
    case '"' => Some('"')
    case '\\' => Some('\\')
    case '/' => Some('/')
    case 'b' => Some(8 as char)
    case 'f' => Some(12 as char)
    case 'n' => Some('\n')
    case 'r' => Some('\r')
    case 't' => Some('\t')
    case _ => None
  }

  /** The next character of a string literal and how much text spells it. */
  function NextChar(s: string): (r: Option<(char, nat)>)
    requires s != ""
    ensures r.Some? ==> 0 < r.value.1 <= |s|
  {
    if s[0] == '\\' then
      if |s| < 2 then None
      else if s[1] == 'u' then
        var u := ParseUnicode(s[2..]);
        if u.None? then None else Some((u.value.0, 2 + u.value.1))
      else
        var c := SimpleEscape(s[1]);
        if c.None? then None else Some((c.value, 2))
    else if s[0] as int < 32 then None
    else Some((s[0], 1))
  }

  /** The rest of a string literal after its opening quote. */
  function ParseString(s: string): (r: Option<(string, string)>)
    ensures r.Some? ==> |r.value.1| < |s|
    decreases |s|
  {
    if s == "" then None
    else if s[0] == '"' then Some(("", s[1..]))
    else
      var c := NextChar(s);
      if c.None? then None
      else
        var rest := ParseString(s[c.value.1..]);
        if rest.None? then None else Some(([c.value.0] + rest.value.0, rest.value.1))
  }

  lemma {:induction false} DigitRunExactly(s: string, d: nat)
    requires d <= |s| && forall i :: 0 <= i < d ==> IsDigit(s[i])
    requires d < |s| ==> !IsDigit(s[d])
    ensures DigitRun(s) == d
  {
    if d > 0 {
      var rest := s[1..];
      forall i | 0 <= i < d - 1 ensures IsDigit(rest[i]) {
        assert rest[i] == s[i + 1];
      }
      DigitRunExactly(rest, d - 1);
    }
  }

  /** A text that spells the same up to the end of a real, and then something else. */
  predicate SameReal(s: string, t: string) {
    var k := RealLength(s);
    && k > 0 && k <= |t| && (forall i :: 0 <= i < k ==> t[i] == s[i])
    && (k < |t| ==> !IsDigit(t[k]) && t[k] != '.' && t[k] != 'e' && t[k] != 'E')
  }

  /** The character after the integer part of a real. */
  lemma RealMark(s: string)
    requires RealLength(s) > 0
    ensures var i := IntegerLength(s); 0 < i < RealLength(s) && (s[i] == '.' || s[i] == 'e' || s[i] == 'E')
  {
    hide IntegerLength, DigitRun;
    var i := IntegerLength(s);
    if FractionLength(s[i..]) == 0 { assert s[i + 0..] == s[i..]; }
    assert s[i..][0] == s[i];
  }

  lemma IntegerLocal(s: string, t: string)
    requires SameReal(s, t)
    ensures IntegerLength(t) == IntegerLength(s)
  {
    hide DigitRun;
    var m, i := SignLength(s), IntegerLength(s);
    RealMark(s);
    hide RealLength, FractionLength, ExponentLength;
    assert !IsDigit(s[i]) && !IsDigit(t[i]);
    assert SignLength(t) == m;
    forall j | 0 <= j < i - m ensures IsDigit(s[m..][j]) && IsDigit(t[m..][j]) {
      assert s[m..][j] == s[m + j] == t[m + j];
    }
    assert s[m..][i - m] == s[i] && t[m..][i - m] == t[i];
    DigitRunExactly(s[m..], i - m);
    DigitRunExactly(t[m..], i - m);
  }

  lemma FractionLocal(a: string, b: string, n: nat)
    requires n == FractionLength(a) <= |b| && forall i :: 0 <= i < n ==> b[i] == a[i]
    requires n < |b| ==> !IsDigit(b[n]) && (n == 0 ==> b[0] != '.')
    ensures FractionLength(b) == n
  {
    hide DigitRun;
    if n > 0 {
      forall j | 0 <= j < n - 1 ensures IsDigit(b[1..][j]) {
        assert b[1..][j] == a[j + 1];
      }
      if n < |b| { assert b[1..][n - 1] == b[n]; }
      DigitRunExactly(b[1..], n - 1);
    }
  }

  lemma ExponentLocal(a: string, b: string, n: nat)
    requires n == ExponentLength(a) <= |b| && forall i :: 0 <= i < n ==> b[i] == a[i]
    requires n < |b| ==> !IsDigit(b[n]) && (n == 0 ==> b[0] != 'e' && b[0] != 'E')
    ensures ExponentLength(b) == n
  {
    hide DigitRun;
    if n > 0 {
      var m := MarkLength(a);
      assert MarkLength(b) == m by { assert IsDigit(a[m]); assert b[1] == a[1]; }
      forall j | 0 <= j < n - m ensures IsDigit(b[m..][j]) {
        assert b[m..][j] == a[j + m];
      }
      if n < |b| { assert b[m..][n - m] == b[n]; }
      DigitRunExactly(b[m..], n - m);
    }
  }

  /** Where a real ends depends only on its own characters and that none follows that would go on. */
  lemma RealLocal(s: string, t: string)
    requires SameReal(s, t)
    ensures RealLength(t) == RealLength(s)
  {
    hide IntegerLength, FractionLength, ExponentLength;
    var k, i := RealLength(s), IntegerLength(s);
    var f := FractionLength(s[i..]);
    var e := ExponentLength(s[i + f..]);
    IntegerLocal(s, t);
    forall j | 0 <= j < f ensures t[i..][j] == s[i..][j] {
      assert t[i..][j] == t[i + j] == s[i + j];
    }
    if i + f < |t| {
      assert t[i..][f] == t[i + f];
      if i + f < k {
        assert t[i + f] == s[i + f] == s[i + f..][0];
        ExponentMark(s[i + f..]);
      }
    }
    FractionLocal(s[i..], t[i..], f);
    var from, to := s[i + f..], t[i + f..];
    forall j | 0 <= j < e ensures to[j] == from[j] {
      assert to[j] == t[i + f + j] == s[i + f + j];
    }
    if k < |t| { assert to[e] == t[k]; }
    ExponentLocal(from, to, e);
  }

  lemma ExponentMark(s: string)
    ensures ExponentLength(s) > 0 ==> s[0] == 'e' || s[0] == 'E'
  {
  }

  lemma RealPrefix(s: string)
    requires RealLength(s) > 0
    ensures SpellsReal(s[..RealLength(s)])
  {
    RealLocal(s, s[..RealLength(s)]);
  }

  /** A decimal before something that does not go on with digits. */
  lemma IntegerOf(n: int, rest: string)
    requires rest != "" ==> !IsDigit(rest[0])
    ensures IntegerLength(Decimal(n) + rest) == |Decimal(n)| && (Decimal(n) + rest)[|Decimal(n)|..] == rest
  {
    hide DigitsValue, DigitRun;
    var size := if n < 0 then -n else n;
    var d, s := Decimal(size), Decimal(n) + rest;
    assert n < 0 ==> Decimal(n) == "-" + d;
    DecimalDigits(size);
    hide Decimal;
    DigitRunOf(d, rest);
    assert d[0] == (d + rest)[0];
    if n < 0 {
      assert s[1..] == d + rest;
    } else {
      assert s[0..] == s;
    }
  }

  lemma DotZero()
    ensures FractionLength(".0") == 2 && ExponentLength("") == 0
  {
    DigitRunExactly("0", 1);
    assert ".0"[1..] == "0";
  }

  lemma WholeReal(n: int)
    ensures SpellsReal(Decimal(n) + ".0")
  {
    hide IntegerLength, FractionLength, ExponentLength, Decimal;
    var s := Decimal(n) + ".0";
    IntegerOf(n, ".0");
    DotZero();
    DecimalSome(n);
    assert s[|Decimal(n)|..] == ".0" && s[|Decimal(n)| + 2..] == "";
  }

  lemma DecimalSome(n: int)
    ensures Decimal(n) != ""
  {
  }

  /** A word or a number. */
  function ParseScalar(s: string): (r: Option<(Value, string)>)
    ensures r.Some? ==> |r.value.1| < |s|
  {
    if "null" <= s then Some((Null, s[4..]))
    else if "true" <= s then Some((Bool(true), s[4..]))
    else if "false" <= s then Some((Bool(false), s[5..]))
    else if RealLength(s) > 0 then
      RealPrefix(s);
      Some((Real(s[..RealLength(s)]), s[RealLength(s)..]))
    else if s != "" && s[0] == '-' then
      var r := ParseNatural(s[1..]);
      if r.None? then None else Some((Num(0 - r.value.0 as int), r.value.1))
    else
      var r := ParseNatural(s);
      if r.None? then None else Some((Num(r.value.0), r.value.1))
  }

  function ParseArray(t: string): (r: Option<(Value, string)>)
    ensures r.Some? ==> |r.value.1| < |t|
    decreases |t|, 3
  {
    if t != "" && t[0] == ']' then Some((Arr([]), t[1..]))
    else
      var r := ParseItems(t);
      if r.None? then None else Some((Arr(r.value.0), r.value.1))
  }

  function ParseObject(t: string): (r: Option<(Value, string)>)
    ensures r.Some? ==> |r.value.1| < |t|
    decreases |t|, 3
  {
    if t != "" && t[0] == '}' then Some((Obj([]), t[1..]))
    else
      var r := ParseFields(t);
      if r.None? then None else Some((Obj(r.value.0), r.value.1))
  }

  function ParseValue(s: string): (r: Option<(Value, string)>)
    ensures r.Some? ==> |r.value.1| < |s|
    decreases |s|, 0
  {
    if s == "" then None
    else if s[0] == '"' then
      var r := ParseString(s[1..]);
      if r.None? then None else Some((Str(r.value.0), r.value.1))
    else if s[0] == '[' then ParseArray(SkipBlank(s[1..]))
    else if s[0] == '{' then ParseObject(SkipBlank(s[1..]))
    else ParseScalar(s)
  }

  function ParseItems(s: string): (r: Option<(seq<Value>, string)>)
    ensures r.Some? ==> |r.value.1| < |s|
    decreases |s|, 1
  {
    var v := ParseValue(s);
    if v.None? then None
    else
      var t := SkipBlank(v.value.1);
      if t == "" then None
      else if t[0] == ']' then Some(([v.value.0], t[1..]))
      else if t[0] == ',' then
        var r := ParseItems(SkipBlank(t[1..]));
        if r.None? then None else Some(([v.value.0] + r.value.0, r.value.1))
      else None
  }

  /** A key, a colon and a value. */
  function ParseField(s: string): (r: Option<((string, Value), string)>)
    ensures r.Some? ==> |r.value.1| < |s|
    decreases |s|, 1
  {
    if s == "" || s[0] != '"' then None
    else
      var k := ParseString(s[1..]);
      if k.None? then None
      else
        var c := SkipBlank(k.value.1);
        if c == "" || c[0] != ':' then None
        else
          var v := ParseValue(SkipBlank(c[1..]));
          if v.None? then None else Some(((k.value.0, v.value.0), v.value.1))
  }

  function ParseFields(s: string): (r: Option<(seq<(string, Value)>, string)>)
    ensures r.Some? ==> |r.value.1| < |s|
    decreases |s|, 2
  {
    var f := ParseField(s);
    if f.None? then None
    else
      var t := SkipBlank(f.value.1);
      if t == "" then None
      else if t[0] == '}' then Some(([f.value.0], t[1..]))
      else if t[0] == ',' then
        var r := ParseFields(SkipBlank(t[1..]));
        if r.None? then None else Some(([f.value.0] + r.value.0, r.value.1))
      else None
  }

  /** `json.loads`. */
  function Decode(s: string): Option<Value> {
    var r := ParseValue(SkipBlank(s));
    if r.None? || SkipBlank(r.value.1) != "" then None else Some(r.value.0)
  }

  /** `payload.get(key)` on a decoded object: the last occurrence of a repeated key counts. */
  function Lookup(fields: seq<(string, Value)>, key: string): Option<Value> {
    if fields == [] then None
    else if fields[|fields| - 1].0 == key then Some(fields[|fields| - 1].1)
    else Lookup(fields[..|fields| - 1], key)
  }

  // ----- Round trips -----

  lemma HexRoundTrip(n: nat)
    requires n < 16
    ensures HexValue(HexDigit(n)) == Some(n)
  {
  }

  lemma HexEscapeParses(c: char, rest: string)
    requires c as int < 32
    ensures ParseUnicode(['0', '0', HexDigit(c as int / 16), HexDigit(c as int % 16)] + rest) == Some((c, 4))
  {
    var s := ['0', '0', HexDigit(c as int / 16), HexDigit(c as int % 16)] + rest;
    HexRoundTrip(c as int / 16);
    HexRoundTrip(c as int % 16);
    HexRoundTrip(0);
    assert s[0] == '0' && s[1] == '0' && s[2] == HexDigit(c as int / 16) && s[3] == HexDigit(c as int % 16);
    assert HexFour(s) == Some(c as int);
  }

  lemma EscapedCharParses(c: char, rest: string)
    ensures var s := EscapeChar(c) + rest;
            s != "" && s[0] != '"' && NextChar(s) == Some((c, |EscapeChar(c)|)) && s[|EscapeChar(c)|..] == rest
  {
    hide ParseUnicode;
    var e := EscapeChar(c);
    var s := e + rest;
    assert s[0] == e[0];
    if |e| == 6 {
      assert s[1] == 'u';
      assert s[2..] == ['0', '0', HexDigit(c as int / 16), HexDigit(c as int % 16)] + rest;
      HexEscapeParses(c, rest);
    } else if |e| == 2 {
      assert s[1] == e[1];
    }
  }

  lemma {:induction false} StringParses(s: string, rest: string)
    ensures ParseString(Escape(s) + "\"" + rest) == Some((s, rest))
  {
    hide NextChar, EscapeChar;
    var t := Escape(s) + "\"" + rest;
    if s == "" {
      assert t == "\"" + rest;
      assert t[1..] == rest;
    } else {
      var more := Escape(s[1..]) + "\"" + rest;
      assert t == EscapeChar(s[0]) + more;
      EscapedCharParses(s[0], more);
      StringParses(s[1..], rest);
      assert s == [s[0]] + s[1..];
    }
  }

  lemma {:induction false} DecimalDigits(n: nat)
    ensures forall i :: 0 <= i < |Decimal(n)| ==> IsDigit(Decimal(n)[i])
    ensures DigitsValue(Decimal(n)) == n
    ensures Decimal(n)[0] == '0' ==> n == 0 && |Decimal(n)| == 1
  {
    if n >= 10 {
      DecimalDigits(n / 10);
      assert Decimal(n)[..|Decimal(n)| - 1] == Decimal(n / 10);
    } else {
      assert Decimal(n)[..0] == "";
    }
  }

  lemma {:induction false} DigitRunOf(d: string, rest: string)
    requires forall i :: 0 <= i < |d| ==> IsDigit(d[i])
    requires rest != "" ==> !IsDigit(rest[0])
    ensures DigitRun(d + rest) == |d|
  {
    if d == "" {
      assert d + rest == rest;
    } else {
      assert (d + rest)[1..] == d[1..] + rest;
      DigitRunOf(d[1..], rest);
    }
  }

  /** What may follow a value in a compact text. */
  predicate Ends(rest: string) {
    rest == "" || rest[0] == ',' || rest[0] == ']' || rest[0] == '}'
  }

  lemma NaturalParses(n: nat, rest: string)
    requires Ends(rest)
    ensures ParseNatural(Decimal(n) + rest) == Some((n, rest))
  {
    var d := Decimal(n);
    DecimalDigits(n);
    DigitRunOf(d, rest);
    assert (d + rest)[0] == d[0];
    assert (d + rest)[..|d|] == d && (d + rest)[|d|..] == rest;
  }

  /** An integer before a delimiter spells no real. */
  lemma NoReal(n: int, rest: string)
    requires Ends(rest)
    ensures RealLength(Decimal(n) + rest) == 0
  {
    hide Decimal, IntegerLength, RealLength;
    IntegerOf(n, rest);
    EndsReal(Decimal(n) + rest, rest);
  }

  lemma EndsReal(s: string, rest: string)
    requires Ends(rest) && s[IntegerLength(s)..] == rest
    ensures RealLength(s) == 0
  {
    hide DigitRun, IntegerLength;
    assert rest[0..] == rest;
  }

  lemma NumberParses(n: int, rest: string)
    requires Ends(rest)
    ensures ParseScalar(Decimal(n) + rest) == Some((Num(n), rest))
    ensures IsDigit(Decimal(n)[0]) || Decimal(n)[0] == '-'
  {
    hide ParseNatural, DigitsValue, RealLength, DigitRun;
    var s := Decimal(n) + rest;
    NoReal(n, rest);
    if n < 0 {
      assert Decimal(n) == "-" + Decimal(-n);
      hide Decimal;
      assert s[0] == '-' && s[1..] == Decimal(-n) + rest;
      NaturalParses(-n, rest);
    } else {
      DecimalDigits(n);
      hide Decimal;
      assert s[0] == Decimal(n)[0];
      NaturalParses(n, rest);
    }
  }

  lemma RealStarts(text: RealText)
    ensures text != "" && (IsDigit(text[0]) || text[0] == '-') && StartsValue(text[0])
  {
    hide DigitRun, FractionLength, ExponentLength;
    assert IntegerLength(text) > 0;
  }

  predicate IsAscii(s: string) {
    forall j :: 0 <= j < |s| ==> s[j] as int < 0x80
  }

  lemma PartsAreAscii(s: string)
    ensures IsAscii(s[..IntegerLength(s)]) && IsAscii(s[..FractionLength(s)]) && IsAscii(s[..ExponentLength(s)])
  {
    hide DigitRun;
    forall j | 0 <= j < IntegerLength(s) ensures s[j] as int < 0x80 {
      assert j < SignLength(s) || IsDigit(s[j]);
    }
    forall j | 0 <= j < FractionLength(s) ensures s[j] as int < 0x80 {
      assert j == 0 || IsDigit(s[j]);
    }
    forall j | 0 <= j < ExponentLength(s) ensures s[j] as int < 0x80 {
      assert j < MarkLength(s) || IsDigit(s[j]);
    }
  }

  lemma AsciiAdds(a: string, b: string)
    requires IsAscii(a) && IsAscii(b)
    ensures IsAscii(a + b)
  {
  }

  lemma RealIsAscii(text: RealText)
    ensures IsAscii(text)
  {
    hide IntegerLength, FractionLength, ExponentLength, IsAscii;
    var i := IntegerLength(text);
    var f := FractionLength(text[i..]);
    var e := ExponentLength(text[i + f..]);
    PartsAreAscii(text);
    PartsAreAscii(text[i..]);
    PartsAreAscii(text[i + f..]);
    AsciiAdds(text[..i], text[i..][..f]);
    AsciiAdds(text[..i] + text[i..][..f], text[i + f..][..e]);
    assert text == text[..i] + text[i..][..f] + text[i + f..][..e];
  }

  lemma RealParses(text: RealText, rest: string)
    requires Ends(rest)
    ensures ParseValue(text + rest) == Some((Real(text), rest))
  {
    hide RealLength, ParseNatural, DigitsValue;
    var s := text + rest;
    RealStarts(text);
    assert s[0] == text[0];
    assert |text| < |s| ==> s[|text|] == rest[0];
    RealLocal(text, s);
    assert s[..|text|] == text && s[|text|..] == rest;
  }

  predicate StartsValue(c: char) {
    !IsBlank(c) && c != ']' && c != '}'
  }

  /** The first character of an encoded value is neither blank nor a closing bracket. */
  lemma EncodeStarts(v: Value)
    ensures Encode(v) != "" && StartsValue(Encode(v)[0])
  {
    hide EncodeItems, EncodeFields, Escape, Decimal, RealLength;
    if v.Num? { NumberParses(v.n, ""); }
    if v.Real? { RealStarts(v.text); }
  }

  lemma WordsParse(rest: string)
    ensures ParseValue("null" + rest) == Some((Null, rest))
    ensures ParseValue("true" + rest) == Some((Bool(true), rest))
    ensures ParseValue("false" + rest) == Some((Bool(false), rest))
  {
    hide ParseNatural;
    assert ("null" + rest)[4..] == rest && ("true" + rest)[4..] == rest && ("false" + rest)[5..] == rest;
    assert ("null" + rest)[0] == 'n' && ("true" + rest)[0] == 't' && ("false" + rest)[0] == 'f';
  }

  lemma StrParses(t: string, rest: string)
    ensures ParseValue(Quote(t) + rest) == Some((Str(t), rest))
  {
    hide ParseString, ParseScalar, ParseArray, ParseObject, Escape;
    var s := Quote(t) + rest;
    assert s[0] == '"' && s[1..] == Escape(t) + "\"" + rest;
    StringParses(t, rest);
  }

  lemma NumParses(n: int, rest: string)
    requires Ends(rest)
    ensures ParseValue(Decimal(n) + rest) == Some((Num(n), rest))
  {
    hide ParseScalar;
    NumberParses(n, rest);
    assert (Decimal(n) + rest)[0] == Decimal(n)[0];
  }

  function AsArray(r: Option<(seq<Value>, string)>): Option<(Value, string)> {
    if r.None? then None else Some((Arr(r.value.0), r.value.1))
  }

  function AsObject(r: Option<(seq<(string, Value)>, string)>): Option<(Value, string)> {
    if r.None? then None else Some((Obj(r.value.0), r.value.1))
  }

  /** The text of an array or object after its opening bracket, when it is not empty. */
  lemma BracketParses(open: char, body: string)
    requires body != "" && StartsValue(body[0]) && (open == '[' || open == '{')
    ensures open == '[' ==> ParseValue([open] + body) == AsArray(ParseItems(body))
    ensures open == '{' ==> ParseValue([open] + body) == AsObject(ParseFields(body))
  {
    hide ParseItems, ParseFields, ParseScalar;
    var s := [open] + body;
    assert s[0] == open && s[1..] == body;
    assert SkipBlank(body) == body;
  }

  lemma EmptyParses(rest: string)
    ensures ParseValue("[]" + rest) == Some((Arr([]), rest))
    ensures ParseValue("{}" + rest) == Some((Obj([]), rest))
  {
    hide ParseItems, ParseFields, ParseScalar;
    assert ("[]" + rest)[1..] == "]" + rest && ("]" + rest)[1..] == rest;
    assert ("{}" + rest)[1..] == "}" + rest && ("}" + rest)[1..] == rest;
  }

  lemma {:induction false} ValueParses(v: Value, rest: string)
    requires Ends(rest)
    ensures ParseValue(Encode(v) + rest) == Some((v, rest))
    decreases v
  {
    hide ParseValue, ParseItems, ParseFields, EncodeItems, EncodeFields, Quote, Decimal;
    match v
    case Null => WordsParse(rest);
    case Bool(_) => WordsParse(rest);
    case Num(n) => NumParses(n, rest);
    case Real(text) => RealParses(text, rest);
    case Str(t) => StrParses(t, rest);
    case Arr(items) =>
      if items == [] {
        EmptyParses(rest);
        EncodeNothing();
        assert Encode(v) == "[]";
      } else {
        ItemsStart(items);
        ItemsParse(items, rest);
        var body := EncodeItems(items) + "]" + rest;
        assert body[0] == EncodeItems(items)[0];
        BracketParses('[', body);
        assert Encode(v) + rest == ['['] + body;
      }
    case Obj(fields) =>
      if fields == [] {
        EmptyParses(rest);
        EncodeNothing();
        assert Encode(v) == "{}";
      } else {
        FieldsStart(fields);
        FieldsParse(fields, rest);
        var body := EncodeFields(fields) + "}" + rest;
        assert body[0] == EncodeFields(fields)[0];
        BracketParses('{', body);
        assert Encode(v) + rest == ['{'] + body;
      }
  }

  lemma EncodeNothing()
    ensures EncodeItems([]) == "" && EncodeFields([]) == ""
  {
  }

  lemma ItemsStart(items: seq<Value>)
    requires items != []
    ensures EncodeItems(items) != "" && StartsValue(EncodeItems(items)[0])
  {
    hide Encode;
    EncodeStarts(items[0]);
  }

  lemma FieldsStart(fields: seq<(string, Value)>)
    requires fields != []
    ensures EncodeFields(fields) != "" && EncodeFields(fields)[0] == '"'
  {
    hide Encode;
    assert EncodeField(fields[0])[0] == '"';
  }

  /** One element: the value, then a bracket that ends the list or a comma and the others. */
  lemma ItemStep(v: Value, rest: string)
    requires ParseValue(Encode(v) + "]" + rest) == Some((v, "]" + rest))
    ensures ParseItems(Encode(v) + "]" + rest) == Some(([v], rest))
  {
    hide ParseValue, Encode;
    assert ("]" + rest)[1..] == rest;
  }

  lemma ItemsStep(v: Value, more: string)
    requires ParseValue(Encode(v) + "," + more) == Some((v, "," + more))
    requires more != "" && StartsValue(more[0])
    ensures ParseItems(Encode(v) + "," + more) ==
            if ParseItems(more).None? then None else Some(([v] + ParseItems(more).value.0, ParseItems(more).value.1))
  {
    hide ParseValue, Encode;
    assert ("," + more)[1..] == more;
    assert SkipBlank(more) == more;
  }

  lemma {:induction false} ItemsParse(items: seq<Value>, rest: string)
    requires items != []
    ensures ParseItems(EncodeItems(items) + "]" + rest) == Some((items, rest))
    decreases items
  {
    hide ParseValue, ParseItems, Encode;
    var v, more := items[0], items[1..];
    if more == [] {
      ValueParses(v, "]" + rest);
      assert EncodeItems(items) + "]" + rest == Encode(v) + "]" + rest == Encode(v) + ("]" + rest);
      ItemStep(v, rest);
      assert [v] == items;
    } else {
      var t := EncodeItems(more) + "]" + rest;
      ValueParses(v, "," + t);
      assert EncodeItems(items) + "]" + rest == Encode(v) + "," + t == Encode(v) + ("," + t);
      ItemsStart(more);
      assert t[0] == EncodeItems(more)[0];
      ItemsStep(v, t);
      ItemsParse(more, rest);
      assert [v] + more == items;
    }
  }

  /** One field, with whatever follows its value. */
  lemma FieldParses(f: (string, Value), tail: string)
    requires ParseValue(Encode(f.1) + tail) == Some((f.1, tail))
    ensures ParseField(EncodeField(f) + tail) == Some((f, tail))
  {
    hide ParseValue, Encode, ParseString, Escape;
    var s := EncodeField(f) + tail;
    var c := ":" + (Encode(f.1) + tail);
    assert s == "\"" + (Escape(f.0) + "\"" + c);
    assert s[0] == '"' && s[1..] == Escape(f.0) + "\"" + c;
    StringParses(f.0, c);
    assert c[1..] == Encode(f.1) + tail;
    EncodeStarts(f.1);
    assert c[1..][0] == Encode(f.1)[0];
    assert SkipBlank(c[1..]) == c[1..];
    assert (f.0, f.1) == f;
  }

  lemma FieldStep(f: (string, Value), rest: string)
    requires ParseField(EncodeField(f) + "}" + rest) == Some((f, "}" + rest))
    ensures ParseFields(EncodeField(f) + "}" + rest) == Some(([f], rest))
  {
    hide ParseField, EncodeField;
    assert ("}" + rest)[1..] == rest;
  }

  lemma FieldsStep(f: (string, Value), more: string)
    requires ParseField(EncodeField(f) + "," + more) == Some((f, "," + more))
    requires more != "" && StartsValue(more[0])
    ensures ParseFields(EncodeField(f) + "," + more) ==
            if ParseFields(more).None? then None else Some(([f] + ParseFields(more).value.0, ParseFields(more).value.1))
  {
    hide ParseField, EncodeField;
    assert ("," + more)[1..] == more;
    assert SkipBlank(more) == more;
  }

  lemma {:induction false} FieldsParse(fields: seq<(string, Value)>, rest: string)
    requires fields != []
    ensures ParseFields(EncodeFields(fields) + "}" + rest) == Some((fields, rest))
    decreases fields
  {
    hide ParseValue, ParseFields, ParseField, Encode, EncodeField;
    var f, more := fields[0], fields[1..];
    assert f.1 < f;
    if more == [] {
      ValueParses(f.1, "}" + rest);
      FieldParses(f, "}" + rest);
      assert EncodeFields(fields) + "}" + rest == EncodeField(f) + "}" + rest == EncodeField(f) + ("}" + rest);
      FieldStep(f, rest);
      assert [f] == fields;
    } else {
      var t := EncodeFields(more) + "}" + rest;
      ValueParses(f.1, "," + t);
      FieldParses(f, "," + t);
      assert EncodeFields(fields) + "}" + rest == EncodeField(f) + "," + t == EncodeField(f) + ("," + t);
      FieldsStart(more);
      assert t[0] == '"';
      FieldsStep(f, t);
      FieldsParse(more, rest);
      assert [f] + more == fields;
    }
  }

  /** Reading back what was written gives the same value. */
  lemma RoundTrip(v: Value)
    ensures Decode(Encode(v)) == Some(v)
  {
    hide ParseValue;
    ValueParses(v, "");
    assert Encode(v) + "" == Encode(v);
    EncodeStarts(v);
  }
}
