/** Torn-read-safe tailing of an append-only line file (`ingest/adapters/base.py`). */
module Tail {
  import opened Text

  const NEWLINE: byte := 10

  /** `raw.split(b"\n")`: always at least one piece. */
  function Split(raw: seq<byte>): (lines: seq<seq<byte>>)
    ensures |lines| >= 1
  {
    if raw == [] then [[]]
    else
      var rest := Split(raw[1..]);
      if raw[0] == NEWLINE then [[]] + rest else [[raw[0]] + rest[0]] + rest[1..]
  }

  function Unsplit(lines: seq<seq<byte>>): seq<byte> {
    if lines == [] then [] else if |lines| == 1 then lines[0] else lines[0] + [NEWLINE] + Unsplit(lines[1..])
  }

  function NonEmpty(lines: seq<seq<byte>>): seq<seq<byte>> {
    if lines == [] then [] else (if lines[0] == [] then [] else [lines[0]]) + NonEmpty(lines[1..])
  }

  /** Whatever follows the last newline: a line still being written, or nothing. */
  function Partial(raw: seq<byte>): seq<byte> {
    Split(raw)[|Split(raw)| - 1]
  }

  /** The non-empty complete lines. */
  function Records(raw: seq<byte>): seq<seq<byte>> {
    NonEmpty(Split(raw)[..|Split(raw)| - 1])
  }

  /** The length of the part of `raw` up to and including its last newline. */
  function CompleteLength(raw: seq<byte>): (n: int) {
    |raw| - |Partial(raw)|
  }

  /** `read_complete_records(path, start)`: the new records and the offset reached. A file shorter
      than the offset is read from its beginning. */
  function ReadCompleteRecords(file: seq<byte>, start: nat): (seq<seq<byte>>, int) {
    var from := if |file| < start then 0 else start;
    (Records(file[from..]), from + CompleteLength(file[from..]))
  }

  /** An offset at which a read may resume. */
  predicate AtLineStart(file: seq<byte>, offset: int) {
    0 <= offset <= |file| && (offset == 0 || file[offset - 1] == NEWLINE)
  }

  // ----- What the pieces are -----

  /** Splitting loses nothing, and no piece contains a newline. */
  lemma {:induction false} SplitIsFaithful(raw: seq<byte>)
    ensures Unsplit(Split(raw)) == raw
    ensures forall i :: 0 <= i < |Split(raw)| ==> NEWLINE !in Split(raw)[i]
  {
    if raw != [] {
      SplitIsFaithful(raw[1..]);
      var rest := Split(raw[1..]);
      if raw[0] == NEWLINE {
        assert Split(raw)[1..] == rest;
      } else {
        assert Split(raw)[1..] == rest[1..];
        assert Unsplit(Split(raw)) == [raw[0]] + Unsplit(rest);
      }
    }
  }

  /** The partial line is a suffix that starts right after a newline, or at the beginning. */
  lemma {:induction false} PartialIsSuffix(raw: seq<byte>)
    ensures AtLineStart(raw, CompleteLength(raw))
    ensures raw[CompleteLength(raw)..] == Partial(raw) && NEWLINE !in Partial(raw)
  {
    if raw != [] {
      PartialIsSuffix(raw[1..]);
      var rest := Split(raw[1..]);
      if raw[0] == NEWLINE || |rest| > 1 {
        assert Partial(raw) == Partial(raw[1..]);
        if |rest| == 1 { assert Partial(raw[1..]) == raw[1..] by { SplitIsFaithful(raw[1..]); } }
        if |rest| > 1 { SplitCount(raw[1..]); }
      } else {
        SplitIsFaithful(raw[1..]);
        assert Partial(raw) == [raw[0]] + raw[1..] == raw;
      }
    }
  }

  /** More than one piece means a newline was consumed. */
  lemma {:induction false} SplitCount(raw: seq<byte>)
    ensures |Split(raw)| > 1 <==> CompleteLength(raw) > 0
  {
    if raw != [] {
      SplitCount(raw[1..]);
      SplitIsFaithful(raw[1..]);
      var rest := Split(raw[1..]);
      if |rest| == 1 {
        assert rest[0] == raw[1..];
      }
      if raw[0] == NEWLINE {
        assert Partial(raw) == Partial(raw[1..]);
        assert |Partial(raw[1..])| <= |raw[1..]| by { PartialLength(raw[1..]); }
      } else if |rest| > 1 {
        assert Partial(raw) == Partial(raw[1..]);
      }
    }
  }

  lemma {:induction false} PartialLength(raw: seq<byte>)
    ensures |Partial(raw)| <= |raw|
  {
    if raw != [] {
      PartialLength(raw[1..]);
      var rest := Split(raw[1..]);
      if raw[0] != NEWLINE && |rest| == 1 { assert Partial(raw) == [raw[0]] + rest[0]; }
    }
  }

  /** A prefix that ends at a line start can be split off. */
  lemma {:induction false} SplitConcat(a: seq<byte>, b: seq<byte>)
    requires AtLineStart(a, |a|)
    ensures Split(a + b) == Split(a)[..|Split(a)| - 1] + Split(b)
  {
    if a == [] {
      assert a + b == b;
    } else {
      if |a| > 1 {
        assert a[1..][|a[1..]| - 1] == NEWLINE;
      }
      SplitConcat(a[1..], b);
      if a[0] != NEWLINE {
        SplitNotOne(a[1..]);
      }
      SplitStep(a);
      SplitStep(a + b);
      PiecesConcat(a[0], Split(a[1..]), Split(b));
      assert (a + b)[1..] == a[1..] + b;
    }
  }

  function Pieces(c: byte, rest: seq<seq<byte>>): seq<seq<byte>>
    requires rest != []
  {
    if c == NEWLINE then [[]] + rest else [[c] + rest[0]] + rest[1..]
  }

  lemma SplitStep(raw: seq<byte>)
    requires raw != []
    ensures Split(raw) == Pieces(raw[0], Split(raw[1..]))
  {
  }

  lemma PiecesConcat(c: byte, a: seq<seq<byte>>, b: seq<seq<byte>>)
    requires a != [] && b != [] && (c != NEWLINE ==> |a| > 1)
    ensures Pieces(c, a[..|a| - 1] + b) == Pieces(c, a)[..|Pieces(c, a)| - 1] + b
  {
    var ab := a[..|a| - 1] + b;
    if c == NEWLINE {
      assert ([[]] + a)[..|a|] == [[]] + a[..|a| - 1];
      assert [[]] + ab == ([[]] + a[..|a| - 1]) + b;
    } else {
      assert ab[0] == a[0] && ab[1..] == a[1..][..|a| - 2] + b;
      assert ([[c] + a[0]] + a[1..])[..|a| - 1] == [[c] + a[0]] + a[1..][..|a| - 2];
    }
  }

  /** Text that ends at a line start leaves no line unfinished. */
  lemma NothingPartial(a: seq<byte>)
    requires AtLineStart(a, |a|)
    ensures Partial(a) == []
  {
    PartialIsSuffix(a);
    var p, n := Partial(a), CompleteLength(a);
    assert forall i :: n <= i < |a| ==> a[i] == p[i - n] && a[i] in p;
  }

  lemma {:induction false} SplitNotOne(a: seq<byte>)
    requires a != [] && a[|a| - 1] == NEWLINE
    ensures |Split(a)| > 1
  {
    if a[0] != NEWLINE {
      assert a[1..][|a[1..]| - 1] == NEWLINE;
      SplitNotOne(a[1..]);
    }
  }

  lemma {:induction false} NonEmptyConcat(a: seq<seq<byte>>, b: seq<seq<byte>>)
    ensures NonEmpty(a + b) == NonEmpty(a) + NonEmpty(b)
  {
    if a == [] {
      assert a + b == b;
    } else {
      assert (a + b)[1..] == a[1..] + b;
      NonEmptyConcat(a[1..], b);
    }
  }

  lemma RecordsConcat(a: seq<byte>, b: seq<byte>)
    requires AtLineStart(a, |a|)
    ensures Records(a + b) == Records(a) + Records(b)
    ensures CompleteLength(a + b) == |a| + CompleteLength(b)
  {
    SplitConcat(a, b);
    NothingPartial(a);
    var sa, sb := Split(a), Split(b);
    assert Split(a + b)[..|Split(a + b)| - 1] == sa[..|sa| - 1] + sb[..|sb| - 1];
    NonEmptyConcat(sa[..|sa| - 1], sb[..|sb| - 1]);
  }

  lemma {:induction false} NoLineNoRecord(raw: seq<byte>)
    requires NEWLINE !in raw
    ensures Split(raw) == [raw]
  {
    if raw != [] {
      assert raw[0] in raw;
      NoLineNoRecord(raw[1..]);
      assert [raw[0]] + raw[1..] == raw;
    }
  }

  /** Nothing is complete exactly when there is no newline. */
  lemma NothingCompleteExactly(raw: seq<byte>)
    ensures CompleteLength(raw) == 0 <==> NEWLINE !in raw
    ensures NEWLINE !in raw ==> Records(raw) == []
  {
    PartialIsSuffix(raw);
    assert raw[0..] == raw;
    if NEWLINE !in raw { NoLineNoRecord(raw); }
  }

  // ----- What one read promises -----

  /** A read from a line start returns exactly the complete lines not seen before, whatever torn
      line follows, and stops at the last line start of the file. */
  lemma ReadIsExact(file: seq<byte>, start: nat)
    requires AtLineStart(file, start)
    ensures var (records, offset) := ReadCompleteRecords(file, start);
            && AtLineStart(file, offset) && start <= offset
            && NEWLINE !in file[offset..]
            && Records(file[..start]) + records == Records(file[..offset]) == Records(file)
            && offset == CompleteLength(file)
            && (offset == start <==> NEWLINE !in file[start..])
  {
    hide Records, CompleteLength, Partial;
    var rest := file[start..];
    var n := CompleteLength(rest);
    var offset := start + n;
    assert file == file[..start] + rest;
    PartialIsSuffix(rest);
    RecordsConcat(file[..start], rest);
    assert rest[n..] == file[offset..];
    assert file == file[..offset] + file[offset..];
    assert AtLineStart(file[..offset], |file[..offset]|);
    RecordsConcat(file[..offset], file[offset..]);
    NothingCompleteExactly(file[offset..]);
    NothingCompleteExactly(rest);
  }

  /** The offset moves backwards exactly when the file is shorter than it, and then the whole file
      is read again. */
  lemma ShrinkIsTheOnlyRetreat(file: seq<byte>, start: nat)
    requires start <= |file| ==> AtLineStart(file, start)
    ensures var (records, offset) := ReadCompleteRecords(file, start);
            && (offset < start <==> |file| < start)
            && (|file| < start ==> records == Records(file) && offset == CompleteLength(file))
            && AtLineStart(file, offset)
  {
    if |file| < start {
      assert file[0..] == file;
      PartialIsSuffix(file);
    } else {
      ReadIsExact(file, start);
    }
  }

  // ----- Decoding the records of one read -----

  /** How one record decodes: `None` for a malformed line, else the canonical events it stands for. */
  type Decoder<!E> = seq<byte> -> Option<seq<E>>

  function EventsOf<E>(decode: Decoder<E>, records: seq<seq<byte>>): seq<E> {
    if records == [] then []
    else
      var last := decode(records[|records| - 1]);
      EventsOf(decode, records[..|records| - 1]) + last.GetOr([])
  }

  function MalformedOf<E>(decode: Decoder<E>, records: seq<seq<byte>>): nat {
    if records == [] then 0
    else MalformedOf(decode, records[..|records| - 1]) + if decode(records[|records| - 1]).None? then 1 else 0
  }

  lemma {:induction false} DecodeConcat<E>(decode: Decoder<E>, a: seq<seq<byte>>, b: seq<seq<byte>>)
    ensures EventsOf(decode, a + b) == EventsOf(decode, a) + EventsOf(decode, b)
    ensures MalformedOf(decode, a + b) == MalformedOf(decode, a) + MalformedOf(decode, b)
  {
    if b == [] {
      assert a + b == a;
    } else {
      assert (a + b)[..|a + b| - 1] == a + b[..|b| - 1];
      DecodeConcat(decode, a, b[..|b| - 1]);
    }
  }

  /** `ClaudeCodeAdapter.tail`: decode every complete record after the cursor, counting the holes. */
  method TailFrom<E>(decode: Decoder<E>, file: seq<byte>, cursor: nat)
    returns (events: seq<E>, offset: int, malformed: nat)
    ensures var (records, end) := ReadCompleteRecords(file, cursor);
            events == EventsOf(decode, records) && offset == end && malformed == MalformedOf(decode, records)
  {
    var (records, end) := ReadCompleteRecords(file, cursor);
    events, offset, malformed := [], end, 0;
    for i := 0 to |records|
      invariant events == EventsOf(decode, records[..i])
      invariant malformed == MalformedOf(decode, records[..i])
    {
      assert records[..i + 1][..i] == records[..i];
      var decoded := decode(records[i]);
      if decoded.None? {
        malformed := malformed + 1;
      } else {
        events := events + decoded.value;
      }
    }
    assert records[..|records|] == records;
  }
}
