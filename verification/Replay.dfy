/** Replaying session files into the store (`replay.py`): tail, insert events and chunks, write one
    memory per session, commit, and only then save the cursor. */
module Replay {
  import opened Text
  import opened Tail
  import opened Normalize

  /** A canonical event: a message carries its record, every other kind its payload. */
  datatype Event = Message(record: Record) | OtherEvent(kind: string, payload: string)

  datatype EventRow = EventRow(session: nat, event: Event)
  datatype ChunkRow = ChunkRow(session: nat, seqNo: nat, content: string)

  /** The one memory about a session, anchored to a whole chunk. */
  datatype MemoryRow = MemoryRow(session: nat, chunk: nat, start: nat, end: nat)

  /** The tables this module writes. Rows are never deleted, so a row's id is its position. */
  datatype Tables = Tables(sessions: seq<string>, events: seq<EventRow>, chunks: seq<ChunkRow>,
                           memories: seq<MemoryRow>)

  const EMPTY := Tables([], [], [], [])

  function FindSession(sessions: seq<string>, key: string): (at: Option<nat>)
    ensures at.Some? ==> at.value < |sessions| && sessions[at.value] == key
    ensures at.None? ==> key !in sessions
  {
    if sessions == [] then None
    else if sessions[|sessions| - 1] == key then Some(|sessions| - 1)
    else FindSession(sessions[..|sessions| - 1], key)
  }

  /** `_get_or_create_session`: the id, and whether this call inserted the row. */
  function SessionFor(t: Tables, key: string): (Tables, nat, bool) {
    var at := FindSession(t.sessions, key);
    if at.Some? then (t, at.value, false) else (t.(sessions := t.sessions + [key]), |t.sessions|, true)
  }

  function MaxSeq(chunks: seq<ChunkRow>, session: nat): nat {
    if chunks == [] then 0
    else
      var before, last := MaxSeq(chunks[..|chunks| - 1], session), chunks[|chunks| - 1];
      if last.session == session && last.seqNo > before then last.seqNo else before
  }

  /** `_next_seq`. */
  function NextSeq(t: Tables, session: nat): nat {
    MaxSeq(t.chunks, session) + 1
  }

  /** The loop's variables: the tables so far, the next chunk number, the first non-empty chunk. */
  datatype Ingest = Ingest(tables: Tables, next: nat, anchor: Option<nat>)

  function IngestOne(g: Ingest, session: nat, e: Event): Ingest {
    var t := g.tables.(events := g.tables.events + [EventRow(session, e)]);
    if !e.Message? then g.(tables := t)
    else
      var content := ChunkOf(e.record);
      Ingest(t.(chunks := t.chunks + [ChunkRow(session, g.next, content)]), g.next + 1,
             if g.anchor.None? && content != "" then Some(|t.chunks|) else g.anchor)
  }

  function IngestAll(g: Ingest, session: nat, events: seq<Event>): Ingest {
    if events == [] then g else IngestOne(IngestAll(g, session, events[..|events| - 1]), session, events[|events| - 1])
  }

  function Remembered(t: Tables, session: nat, anchor: nat): Tables
    requires anchor < |t.chunks|
  {
    t.(memories := t.memories + [MemoryRow(session, anchor, 0, |t.chunks[anchor].content|)])
  }

  /** A chunk of the session that says something. */
  predicate Citable(t: Tables, session: nat, chunk: nat) {
    chunk < |t.chunks| && t.chunks[chunk].session == session && t.chunks[chunk].content != ""
  }

  lemma {:induction false} AnchorInRange(g: Ingest, session: nat, events: seq<Event>)
    requires g.anchor.Some? ==> Citable(g.tables, session, g.anchor.value)
    ensures var h := IngestAll(g, session, events);
            g.tables.chunks <= h.tables.chunks && (h.anchor.Some? ==> Citable(h.tables, session, h.anchor.value))
  {
    hide NormalizeRecords;
    if events != [] { AnchorInRange(g, session, events[..|events| - 1]); }
  }

  function Load(cursors: map<string, nat>, key: string): nat {
    if key in cursors then cursors[key] else 0
  }

  /** The events a replay finds behind the cursor, and the offset it reaches. */
  function Tailed(decode: Decoder<Event>, file: seq<byte>, cursor: nat): (seq<Event>, nat) {
    PartialLength(file[if |file| < cursor then 0 else cursor..]);
    var (records, offset) := ReadCompleteRecords(file, cursor);
    (EventsOf(decode, records), offset)
  }

  /** What one replay commits. */
  function Replayed(t: Tables, key: string, events: seq<Event>): Tables {
    var (tables, session, isNew) := SessionFor(t, key);
    var g := Ingest(tables, NextSeq(tables, session), None);
    var done := IngestAll(g, session, events);
    AnchorInRange(g, session, events);
    if isNew && done.anchor.Some? then Remembered(done.tables, session, done.anchor.value) else done.tables
  }

  datatype ReplayResult = ReplayResult(eventsWritten: nat, chunksWritten: nat, memoriesWritten: nat)

  class Ingester {
    var tables: Tables
    var cursors: map<string, nat>

    constructor ()
      ensures tables == EMPTY && cursors == map[]
    {
      tables, cursors := EMPTY, map[];
    }

    /** `replay`, undisturbed. */
    method Replay(decode: Decoder<Event>, key: string, file: seq<byte>) returns (r: ReplayResult)
      modifies this
      ensures var (events, offset) := Tailed(decode, file, Load(old(cursors), key));
              && tables == Replayed(old(tables), key, events)
              && cursors == old(cursors)[key := offset]
              && r.eventsWritten == |events| && |tables.chunks| == |old(tables).chunks| + r.chunksWritten
              && |tables.memories| == |old(tables).memories| + r.memoriesWritten
    {
      hide ChunkOf, MaxSeq, EventsOf, ReadCompleteRecords, FindSession;
      var (known, session, isNew) := SessionFor(tables, key);
      ghost var before := tables;
      tables := known;
      var (events, offset) := Tailed(decode, file, Load(cursors, key));
      var next := NextSeq(tables, session);
      var anchor: Option<nat> := None;
      ghost var g := Ingest(tables, next, None);
      var chunksWritten := 0;
      for i := 0 to |events|
        invariant Ingest(tables, next, anchor) == IngestAll(g, session, events[..i])
        invariant |tables.chunks| == |before.chunks| + chunksWritten && tables.memories == before.memories
        invariant cursors == old(cursors)
      {
        assert events[..i + 1][..i] == events[..i];
        tables := tables.(events := tables.events + [EventRow(session, events[i])]);
        if events[i].Message? {
          var content := ChunkOf(events[i].record);
          if anchor.None? && content != "" { anchor := Some(|tables.chunks|); }
          tables := tables.(chunks := tables.chunks + [ChunkRow(session, next, content)]);
          chunksWritten := chunksWritten + 1;
          next := next + 1;
        }
      }
      assert events[..|events|] == events;
      AnchorInRange(g, session, events);
      var memoriesWritten := 0;
      if isNew && anchor.Some? {
        tables := Remembered(tables, session, anchor.value);
        memoriesWritten := 1;
      }
      cursors := cursors[key := offset];
      r := ReplayResult(|events|, chunksWritten, memoriesWritten);
    }
  }

  // ----- What one session's rows are -----

  function EventsIn(rows: seq<EventRow>, session: nat): seq<Event> {
    if rows == [] then []
    else EventsIn(rows[..|rows| - 1], session) + if rows[|rows| - 1].session == session then [rows[|rows| - 1].event]
      else []
  }

  function ChunksIn(rows: seq<ChunkRow>, session: nat): seq<ChunkRow> {
    if rows == [] then []
    else ChunksIn(rows[..|rows| - 1], session) + if rows[|rows| - 1].session == session then [rows[|rows| - 1]] else []
  }

  function MemoriesIn(rows: seq<MemoryRow>, session: nat): seq<MemoryRow> {
    if rows == [] then []
    else MemoriesIn(rows[..|rows| - 1], session) + if rows[|rows| - 1].session == session then [rows[|rows| - 1]]
      else []
  }

  function Messages(events: seq<Event>): seq<Record> {
    if events == [] then []
    else Messages(events[..|events| - 1]) + if events[|events| - 1].Message? then [events[|events| - 1].record] else []
  }

  /** Chunk numbers are 1..n, and chunk `i` renders message `i`. */
  predicate Chunked(chunks: seq<ChunkRow>, messages: seq<Record>) {
    |chunks| == |messages| && forall i :: 0 <= i < |chunks| ==>
        chunks[i].seqNo == i + 1 && chunks[i].content == ChunkOf(messages[i])
  }

  predicate SessionSound(t: Tables, session: nat) {
    && Chunked(ChunksIn(t.chunks, session), Messages(EventsIn(t.events, session)))
    && |MemoriesIn(t.memories, session)| <= 1
    && (session >= |t.sessions| ==> EventsIn(t.events, session) == [] && MemoriesIn(t.memories, session) == [])
  }

  /** A memory cites a whole chunk of its own session. */
  predicate Anchored(t: Tables, m: MemoryRow) {
    Citable(t, m.session, m.chunk) && m.start == 0 && m.end == |t.chunks[m.chunk].content|
  }

  ghost predicate Sound(t: Tables) {
    && (forall k :: 0 <= k < |t.memories| ==> Anchored(t, t.memories[k]))
    && (forall i, j :: 0 <= i < j < |t.sessions| ==> t.sessions[i] != t.sessions[j])
    && forall session: nat :: SessionSound(t, session)
  }

  lemma {:induction false} MaxSeqIsCount(chunks: seq<ChunkRow>, session: nat)
    requires forall i :: 0 <= i < |ChunksIn(chunks, session)| ==> ChunksIn(chunks, session)[i].seqNo == i + 1
    ensures MaxSeq(chunks, session) == |ChunksIn(chunks, session)|
  {
    if chunks != [] {
      var init := chunks[..|chunks| - 1];
      forall i | 0 <= i < |ChunksIn(init, session)| ensures ChunksIn(init, session)[i].seqNo == i + 1 {
        assert ChunksIn(chunks, session)[i] == ChunksIn(init, session)[i];
      }
      MaxSeqIsCount(init, session);
      if chunks[|chunks| - 1].session == session {
        assert ChunksIn(chunks, session)[|ChunksIn(init, session)|] == chunks[|chunks| - 1];
      }
    }
  }

  predicate Numbered(g: Ingest, session: nat) {
    && Chunked(ChunksIn(g.tables.chunks, session), Messages(EventsIn(g.tables.events, session)))
    && g.next == |ChunksIn(g.tables.chunks, session)| + 1
  }

  predicate Added(g: Ingest, h: Ingest, session: nat, events: seq<Event>, s: nat) {
    && h.tables.sessions == g.tables.sessions && h.tables.memories == g.tables.memories
    && EventsIn(h.tables.events, s) == EventsIn(g.tables.events, s) + (if s == session then events else [])
    && (s != session ==> ChunksIn(h.tables.chunks, s) == ChunksIn(g.tables.chunks, s))
  }

  /** Each event adds its row to its own session and, if it is a message, the next chunk. */
  lemma {:induction false} IngestAdds(g: Ingest, session: nat, events: seq<Event>, s: nat)
    requires Numbered(g, session)
    ensures Added(g, IngestAll(g, session, events), session, events, s)
            && Numbered(IngestAll(g, session, events), session)
  {
    hide ChunkOf, EventsIn, ChunksIn, Messages, IngestOne, Numbered;
    if events == [] {
      assert EventsIn(g.tables.events, s) + [] == EventsIn(g.tables.events, s);
    } else {
      var init, e := events[..|events| - 1], events[|events| - 1];
      IngestAdds(g, session, init, s);
      var before := IngestAll(g, session, init);
      IngestOneAdds(before, session, e, s);
      assert init + [e] == events;
      assert EventsIn(g.tables.events, s) + (init + [e]) == EventsIn(g.tables.events, s) + init + [e];
    }
  }

  lemma EventsAppend(rows: seq<EventRow>, row: EventRow, s: nat)
    ensures EventsIn(rows + [row], s) == EventsIn(rows, s) + if row.session == s then [row.event] else []
  {
    assert (rows + [row])[..|rows|] == rows;
  }

  lemma ChunksAppend(rows: seq<ChunkRow>, row: ChunkRow, s: nat)
    ensures ChunksIn(rows + [row], s) == ChunksIn(rows, s) + if row.session == s then [row] else []
  {
    assert (rows + [row])[..|rows|] == rows;
  }

  lemma MessagesAppend(events: seq<Event>, e: Event)
    ensures Messages(events + [e]) == Messages(events) + if e.Message? then [e.record] else []
  {
    assert (events + [e])[..|events|] == events;
  }

  lemma IngestOneAdds(g: Ingest, session: nat, e: Event, s: nat)
    requires Numbered(g, session)
    ensures Added(g, IngestOne(g, session, e), session, [e], s) && Numbered(IngestOne(g, session, e), session)
  {
    hide ChunkOf, EventsIn, ChunksIn, Messages;
    var row := EventRow(session, e);
    EventsAppend(g.tables.events, row, s);
    EventsAppend(g.tables.events, row, session);
    MessagesAppend(EventsIn(g.tables.events, session), e);
    if e.Message? {
      ChunksAppend(g.tables.chunks, ChunkRow(session, g.next, ChunkOf(e.record)), s);
      ChunksAppend(g.tables.chunks, ChunkRow(session, g.next, ChunkOf(e.record)), session);
    }
  }
}
