/** Option values and the small text vocabulary the other modules share: Python's whitespace,
    `split`, `strip`, `join`, decimal rendering, and the display sanitizer of `summary/model.py`. */
module Text {
  datatype Option<+T> = None | Some(value: T) {
    function GetOr(default: T): T {
      if Some? then value else default
    }
  }

  newtype byte = n: int | 0 <= n < 256

  const ESC := 0x1b as char
  const BEL := 0x07 as char
  const ELLIPSIS := 0x2026 as char
  const DISPLAY_TEXT_LIMIT: nat := 240

  /** The characters for which `str.isspace` holds, which is also what `\s` matches. */
  predicate IsSpace(c: char) {
    var n := c as int;
    9 <= n <= 13 || 28 <= n <= 32 || n == 0x85 || n == 0xa0 || n == 0x1680 ||
    0x2000 <= n <= 0x200a || n == 0x2028 || n == 0x2029 || n == 0x202f || n == 0x205f || n == 0x3000
  }

  function LStrip(s: string): (r: string)
    ensures |r| <= |s|
    ensures r != "" ==> !IsSpace(r[0])
  {
    if s == "" then "" else if IsSpace(s[0]) then LStrip(s[1..]) else s
  }

  function RStrip(s: string): (r: string)
    ensures r <= s
    ensures r != "" ==> !IsSpace(r[|r| - 1])
  {
    if s == "" then "" else if IsSpace(s[|s| - 1]) then RStrip(s[..|s| - 1]) else s
  }

  function Strip(s: string): string {
    RStrip(LStrip(s))
  }

  /** Text with a visible first character is not blank. */
  lemma NotBlank(s: string)
    requires s != "" && !IsSpace(s[0])
    ensures Strip(s) != ""
  {
    assert LStrip(s) == s;
    KeepsWord(s);
  }

  lemma {:induction false} KeepsWord(s: string)
    requires s != "" && !IsSpace(s[0])
    ensures RStrip(s) != ""
  {
    if |s| > 1 && IsSpace(s[|s| - 1]) { KeepsWord(s[..|s| - 1]); }
  }

  /** The number of leading characters that are not whitespace. */
  function WordLength(s: string): (n: nat)
    ensures n <= |s|
    ensures forall i :: 0 <= i < n ==> !IsSpace(s[i])
    ensures n < |s| ==> IsSpace(s[n])
  {
    if s == "" || IsSpace(s[0]) then 0 else 1 + WordLength(s[1..])
  }

  /** Non-empty and free of whitespace. */
  predicate IsWord(w: string) {
    w != "" && forall i :: 0 <= i < |w| ==> !IsSpace(w[i])
  }

  /** `str.split()`. */
  function Words(s: string): (ws: seq<string>)
    ensures forall i :: 0 <= i < |ws| ==> IsWord(ws[i])
    decreases |s|
  {
    var t := LStrip(s);
    if t == "" then [] else [t[..WordLength(t)]] + Words(t[WordLength(t)..])
  }

  /** `sep.join(parts)`. */
  function Join(parts: seq<string>, sep: string): string {
    if |parts| == 0 then "" else if |parts| == 1 then parts[0] else parts[0] + sep + Join(parts[1..], sep)
  }

  lemma {:induction false} JoinFirst(parts: seq<string>, sep: string)
    requires parts != []
    ensures parts[0] <= Join(parts, sep)
  {
  }

  /** `str(n)`. */
  function Decimal(n: int): (s: string)
    ensures s != ""
    decreases n < 0, if n < 0 then -n else n
  {
    if n < 0 then "-" + Decimal(-n)
    else if n < 10 then [Digit(n)]
    else Decimal(n / 10) + [Digit(n % 10)]
  }

  function Digit(n: nat): char
    requires n < 10
  {
    '0' + n as char
  }

  /** The length of the control sequence at the front of `s`, which starts with ESC: a CSI
      sequence, an OSC sequence with an optional terminator, or the ESC alone. */
  function EscapeLength(s: string): (n: nat)
    requires s != "" && s[0] == ESC
    ensures 1 <= n <= |s|
  {
    if |s| > 1 && s[1] == '[' then
      var p := Span(s, 2, '0', '?');
      var q := Span(s, p, ' ', '/');
      if q < |s| && '@' <= s[q] <= '~' then q + 1 else 1
    else if |s| > 1 && s[1] == ']' then
      var p := OscEnd(s, 2);
      if p < |s| && s[p] == BEL then p + 1
      else if p + 1 < |s| && s[p] == ESC && s[p + 1] == '\\' then p + 2
      else p
    else 1
  }

  /** The first index at or after `i` whose character lies outside `lo..hi`. */
  function Span(s: string, i: nat, lo: char, hi: char): (j: nat)
    requires i <= |s|
    ensures i <= j <= |s|
    decreases |s| - i
  {
    if i < |s| && lo <= s[i] <= hi then Span(s, i + 1, lo, hi) else i
  }

  function OscEnd(s: string, i: nat): (j: nat)
    requires i <= |s|
    ensures i <= j <= |s|
    decreases |s| - i
  {
    if i < |s| && s[i] != BEL && s[i] != ESC then OscEnd(s, i + 1) else i
  }

  function StripAnsi(s: string): (r: string)
    ensures ESC !in r
    decreases |s|
  {
    if s == "" then ""
    else if s[0] == ESC then StripAnsi(s[EscapeLength(s)..])
    else [s[0]] + StripAnsi(s[1..])
  }

  predicate IsControl(c: char) {
    var n := c as int;
    n <= 8 || 11 <= n <= 31 || 0x7f <= n <= 0x9f
  }

  function DropControls(s: string): (r: string)
    ensures forall i :: 0 <= i < |r| ==> !IsControl(r[i])
  {
    if s == "" then "" else if IsControl(s[0]) then DropControls(s[1..]) else [s[0]] + DropControls(s[1..])
  }

  /** `sanitize_text`: one bounded line of display text. */
  function SanitizeText(s: string): (r: string)
    ensures |r| <= DISPLAY_TEXT_LIMIT
    ensures r != "" ==> !IsSpace(r[0])
  {
    var t := Join(Words(DropControls(StripAnsi(s))), " ");
    assert t != "" ==> !IsSpace(t[0]) by {
      var ws := Words(DropControls(StripAnsi(s)));
      if ws != [] {
        JoinFirst(ws, " ");
        assert IsWord(ws[0]) && t[0] == ws[0][0];
      }
    }
    if |t| <= DISPLAY_TEXT_LIMIT then t
    else
      var kept := RStrip(t[..DISPLAY_TEXT_LIMIT - 1]);
      assert kept <= t;
      kept + [ELLIPSIS]
  }

  /** An element of a set that has one. */
  lemma AnElement<T>(s: set<T>) returns (x: T)
    requires s != {}
    ensures x in s
  {
    x :| x in s;
  }

  lemma {:induction false} SubsetSize<T>(a: set<T>, b: set<T>)
    requires a <= b
    ensures |a| <= |b|
  {
    if a != {} {
      var x :| x in a;
      SubsetSize(a - {x}, b - {x});
    }
  }
}
